/**
 The service's two operations as code (verify/service.go Start and Inbound): loops and local
 variables over the store's methods. Between any two store calls other requests may take any
 steps of the protocol. Each operation is proved to be a run of the transition system in which
 the request's own record reaches the answer that the code returns, so every theorem about runs
 is a theorem about this code.
 */
module Service {
  import opened Wrappers
  import opened Store
  import opened Protocol
  import opened Tables
  import Codes
  import Resolution
  import Soundness
  import Completeness
  import StartAnswers
  import InboundAnswers

  // ---------------------------------------------------------------- a request and its surroundings

  /** The record of the running request, which the code keeps in its local variables. */
  datatype Own = Starting(t: Id, start: StartThread) | Receiving(t: Id, inbound: InboundThread)

  /** The state with the running request's record put back. */
  function With(s: State, own: Own): State {
    match own
    case Starting(t, th) => s.(starts := s.starts[t := th])
    case Receiving(t, th) => s.(inbounds := s.inbounds[t := th])
  }

  predicate Absent(s: State, own: Own) { if own.Starting? then own.t !in s.starts else own.t !in s.inbounds }

  predicate IsOwn(own: Own, a: Action) {
    if own.Starting? then a.StartStep? && a.t == own.t else a.InboundStep? && a.t == own.t
  }

  predicate Foreign(own: Own, a: Action) {
    && !IsOwn(own, a)
    && if own.Starting? then !(a.BeginStart? && a.t == own.t) else !(a.BeginInbound? && a.t == own.t)
  }

  lemma ForeignInbound(cfg: Config, s: State, own: Own, u: Id, yes: bool, pick: Option<Id>)
    requires Absent(s, own) && Foreign(own, InboundStep(u, yes, pick)) && u in s.inbounds
    ensures StepInbound(cfg, With(s, own), u, yes, pick) == With(StepInbound(cfg, s, u, yes, pick), own)
  {
    var th, w := s.inbounds[u], With(s, own);
    if InAdmission(th.pc) { ForeignAdmission(s, own, u, th, yes, pick); }
    else if InFailure(th.pc) { ForeignFailure(s, own, u, th); }
    else { ForeignResolution(cfg, s, own, u, th, yes); }
  }

  lemma ForeignAdmission(s: State, own: Own, u: Id, th: InboundThread, yes: bool, pick: Option<Id>)
    requires own.Receiving? ==> u != own.t
    ensures StepAdmission(With(s, own), u, th, yes, pick) == With(StepAdmission(s, u, th, yes, pick), own)
  {
    GoCommutes(s, own, u);
    match th.pc {
      case Lookup =>
      case BlockCheck =>
      case Throttle =>
      case Matching => assert With(s, own).db == s.db && With(s, own).now == s.now;
      case _ =>
    }
  }

  lemma ForeignFailure(s: State, own: Own, u: Id, th: InboundThread)
    requires own.Receiving? ==> u != own.t
    ensures StepFailure(With(s, own), u, th) == With(StepFailure(s, u, th), own)
  {
    GoCommutes(s, own, u);
    match th.pc {
      case Attempting(_) => assert Go(With(s, own), u, th, FailCount(ClaimMismatch)) == With(Go(s, u, th, FailCount(ClaimMismatch)), own);
      case FailCount(_) =>
      case FloodCount(_, _) =>
      case AddBlock(reason, _) => assert Go(With(s, own), u, th, Auditing(Unmatched(reason))) == With(Go(s, u, th, Auditing(Unmatched(reason))), own);
      case _ =>
    }
  }

  lemma ForeignResolution(cfg: Config, s: State, own: Own, u: Id, th: InboundThread, yes: bool)
    requires own.Receiving? ==> u != own.t
    ensures StepResolution(cfg, With(s, own), u, th, yes) == With(StepResolution(cfg, s, u, th, yes), own)
  {
    GoCommutes(s, own, u);
  }

  lemma GoCommutes(s: State, own: Own, u: Id)
    requires own.Receiving? ==> u != own.t
    ensures forall th, pc :: Go(With(s, own), u, th, pc) == With(Go(s, u, th, pc), own)
  {
    forall th, pc
      ensures Go(With(s, own), u, th, pc) == With(Go(s, u, th, pc), own)
    {
      if own.Receiving? {
        assert s.inbounds[own.t := own.inbound][u := th.(pc := pc)] == s.inbounds[u := th.(pc := pc)][own.t := own.inbound];
      }
    }
  }

  lemma ForeignStart(cfg: Config, s: State, own: Own, u: Id, pick: Option<Id>, sid: Id, code: string)
    requires Absent(s, own) && Foreign(own, StartStep(u, pick, sid, code))
    ensures StepStart(cfg, With(s, own), u, pick, sid, code) == With(StepStart(cfg, s, u, pick, sid, code), own)
  {
    GoStartCommutes(s, own, u);
    if u in s.starts {
      match s.starts[u].pc {
        case Picking =>
        case Creating(number, _) =>
          GoStartCommutes(s.(db := Insert(s.db, sid, Candidate(s.starts[u].plan, number, code, s.now))), own, u);
        case Counting =>
        case StartDone(_) =>
      }
    }
  }

  lemma GoStartCommutes(s: State, own: Own, u: Id)
    requires own.Starting? ==> u != own.t
    ensures forall th :: GoStart(With(s, own), u, th) == With(GoStart(s, u, th), own)
  {
    forall th
      ensures GoStart(With(s, own), u, th) == With(GoStart(s, u, th), own)
    {
      if own.Starting? { assert s.starts[own.t := own.start][u := th] == s.starts[u := th][own.t := own.start]; }
    }
  }

  /** Other requests neither see nor touch the running request's record. */
  lemma ForeignStep(cfg: Config, s: State, own: Own, a: Action)
    requires Absent(s, own) && Foreign(own, a)
    ensures Absent(Apply(cfg, s, a), own)
    ensures Apply(cfg, With(s, own), a) == With(Apply(cfg, s, a), own)
  {
    match a {
      case StartStep(u, pick, sid, code) => ForeignStart(cfg, s, own, u, pick, sid, code);
      case InboundStep(u, yes, pick) =>
        InboundFrame(cfg, s, u, yes, pick);
        if u in s.inbounds { ForeignInbound(cfg, s, own, u, yes, pick); }
      case BeginStart(u, req) => ForeignBegin(cfg, s, own, a);
      case BeginInbound(u, req) => ForeignBegin(cfg, s, own, a);
      case _ =>
    }
  }

  lemma ForeignBegin(cfg: Config, s: State, own: Own, a: Action)
    requires Absent(s, own) && Foreign(own, a) && (a.BeginStart? || a.BeginInbound?)
    ensures Absent(Apply(cfg, s, a), own) && Apply(cfg, With(s, own), a) == With(Apply(cfg, s, a), own)
  {
    if own.Starting? && a.BeginStart? && a.t !in s.starts {
      var th := Apply(cfg, s, a).starts[a.t];
      assert s.starts[own.t := own.start][a.t := th] == s.starts[a.t := th][own.t := own.start];
    } else if own.Receiving? && a.BeginInbound? && a.t !in s.inbounds {
      var th := Apply(cfg, s, a).inbounds[a.t];
      assert s.inbounds[own.t := own.inbound][a.t := th] == s.inbounds[a.t := th][own.t := own.inbound];
    }
  }

  lemma Extend(cfg: Config, trace: seq<Action>, a: Action)
    ensures Exec(cfg, trace + [a]) == Apply(cfg, Exec(cfg, trace), a)
  {
    assert (trace + [a])[..|trace|] == trace;
  }

  /** A request's own steps, the i-th of them after others(i). */
  function Woven(others: nat -> seq<Action>, steps: seq<Action>): seq<Action> {
    if steps == [] then []
    else
      var n := |steps| - 1;
      Woven(others, steps[..n]) + others(n) + [steps[n]]
  }

  /** Since begun, the run is the request's own steps woven into foreign ones. */
  ghost predicate IsWoven(own: Own, others: nat -> seq<Action>, begun: seq<Action>, steps: seq<Action>, trace: seq<Action>) {
    && trace == begun + Woven(others, steps)
    && forall i | 0 <= i < |steps| :: IsOwn(own, steps[i])
  }

  ghost predicate AllForeign(own: Own, others: nat -> seq<Action>) {
    forall i, j | 0 <= j < |others(i)| :: Foreign(own, others(i)[j])
  }

  lemma WovenNext(others: nat -> seq<Action>, steps: seq<Action>, a: Action)
    ensures Woven(others, steps + [a]) == Woven(others, steps) + others(|steps|) + [a]
  {
    assert (steps + [a])[..|steps|] == steps;
  }

  lemma SameOwner(own: Own, own': Own)
    requires own'.t == own.t && (own.Starting? <==> own'.Starting?)
    ensures forall a :: (IsOwn(own', a) <==> IsOwn(own, a)) && (Foreign(own', a) <==> Foreign(own, a))
  {}

  /** What is foreign to a request does not depend on how far it is. */
  lemma ForeignToAll(own: Own, own': Own, others: nat -> seq<Action>)
    requires AllForeign(own, others) && own'.t == own.t && (own.Starting? <==> own'.Starting?)
    ensures AllForeign(own', others)
  {
    SameOwner(own, own');
  }

  lemma BeginStartDoes(cfg: Config, s: State, t: Id, req: StartRequest)
    requires t !in s.starts
    ensures var plan := PlanOf(cfg, req, s.now);
      Apply(cfg, s, BeginStart(t, req))
      == With(s, Starting(t, if plan.None? then StartThread(NO_PLAN, 0, StartDone(Invalid)) else StartThread(plan.value, 0, Picking)))
  {}

  lemma WovenGrows(own: Own, own': Own, others: nat -> seq<Action>, begun: seq<Action>, steps: seq<Action>, trace: seq<Action>, a: Action)
    requires IsWoven(own, others, begun, steps, trace) && AllForeign(own, others) && IsOwn(own, a)
    requires own'.t == own.t && (own.Starting? <==> own'.Starting?)
    ensures IsWoven(own', others, begun, steps + [a], trace + others(|steps|) + [a]) && AllForeign(own', others)
  {
    WovenNext(others, steps, a);
    SameOwner(own, own');
    assert begun + (Woven(others, steps) + others(|steps|) + [a]) == trace + others(|steps|) + [a];
  }

  // ---------------------------------------------------------------- what one store call does to a record

  lemma PickDoes(cfg: Config, s: State, t: Id, th: StartThread, pick: Option<Id>)
    requires t !in s.starts && th.pc.Picking? && IsPick(s.db, cfg.maxPending, th.plan.channel, pick)
    ensures Apply(cfg, With(s, Starting(t, th)), StartStep(t, pick, 0, ""))
         == With(s, Starting(t, th.(pc := if pick.None? then Counting else Creating(pick.value, s.db.numbers[pick.value].msisdn))))
  {}

  function AfterCreate(th: StartThread, r: Created, sid: Id, code: string): StartThread
    requires th.pc.Creating?
  {
    match r
    case Inserted => th.(pc := StartDone(Started(sid, th.pc.msisdn, code)))
    case BadReference => th.(pc := StartDone(StoreFailed))
    case Conflict => th.(attempt := th.attempt + 1, pc := if th.attempt + 1 < MAX_START_ATTEMPTS then Picking else Counting)
  }

  lemma CreateDoes(cfg: Config, s: State, t: Id, th: StartThread, sid: Id, code: string, r: Created)
    requires t !in s.starts && th.pc.Creating? && sid !in s.db.sessions && ValidCode(th.plan, code)
    requires var row := Candidate(th.plan, th.pc.number, code, s.now);
      r == if Conflicts(s.db, row) then Conflict else if ReferenceOk(cfg.backend, s.db, row.number) then Inserted else BadReference
    ensures var row := Candidate(th.plan, th.pc.number, code, s.now);
      Apply(cfg, With(s, Starting(t, th)), StartStep(t, None, sid, code))
      == With(if r.Inserted? then s.(db := Insert(s.db, sid, row)) else s, Starting(t, AfterCreate(th, r, sid, code)))
  {}

  function NoNumberAnswer(db: Db, c: Channel): StartOutcome {
    if IsVoice(c) && |Serving(db, c)| > 0 then Busy(|Serving(db, c)|) else NoCapacity
  }

  lemma CountDoes(cfg: Config, s: State, t: Id, th: StartThread)
    requires t !in s.starts && th.pc.Counting?
    ensures Apply(cfg, With(s, Starting(t, th)), StartStep(t, None, 0, ""))
         == With(s, Starting(t, th.(pc := StartDone(NoNumberAnswer(s.db, th.plan.channel)))))
  {}

  // ---------------------------------------------------------------- what one step does to an inbound's record

  lemma LookupDoes(cfg: Config, s: State, t: Id, th: InboundThread, pick: Option<Id>)
    requires t !in s.inbounds && th.pc.Lookup? && IsNumberLookup(s.db, th.req.number, pick)
    ensures Apply(cfg, With(s, Receiving(t, th)), InboundStep(t, true, pick)) == With(s, Receiving(t, AfterLookup(s.db, th, pick)))
  {}

  function AfterLookup(db: Db, th: InboundThread, pick: Option<Id>): InboundThread
    requires IsNumberLookup(db, th.req.number, pick)
  {
    if pick.None? then th.(pc := InboundDone(Unmatched(UnknownNumber)))
    else if db.numbers[pick.value].device != th.req.device then th.(pc := InboundDone(Forbidden))
    else th.(number := pick.value, pc := BlockCheck)
  }

  lemma BlockCheckDoes(cfg: Config, s: State, t: Id, th: InboundThread)
    requires t !in s.inbounds && th.pc.BlockCheck?
    ensures Apply(cfg, With(s, Receiving(t, th)), InboundStep(t, true, None))
         == With(s, Receiving(t, th.(pc := if IsBlocked(s.db.blocks, th.req.sender, s.now) then Auditing(Unmatched(Blocked)) else Throttle)))
  {}

  lemma ThrottleDoes(cfg: Config, s: State, t: Id, th: InboundThread, admitted: bool)
    requires t !in s.inbounds && th.pc.Throttle?
    ensures Apply(cfg, With(s, Receiving(t, th)), InboundStep(t, admitted, None))
         == With(s, Receiving(t, th.(pc := if admitted then Matching else Auditing(Unmatched(RateLimited)))))
  {}

  ghost predicate IsMatch(s: State, th: InboundThread, pick: Option<Id>) {
    var target := TargetOf(th.number, th.req);
    if target.None? then pick.None? else IsFound(s.db, target.value, s.now, pick)
  }

  lemma MatchDoes(cfg: Config, s: State, t: Id, th: InboundThread, pick: Option<Id>)
    requires t !in s.inbounds && th.pc.Matching? && IsMatch(s, th, pick)
    ensures pick.Some? ==> pick.value in s.db.sessions
    ensures Apply(cfg, With(s, Receiving(t, th)), InboundStep(t, true, pick))
         == With(s, Receiving(t, th.(pc := if pick.None? then FailCount(NoMatch)
                                           else Bind(s.db.sessions[pick.value], pick.value, th.req.sender))))
  {}

  lemma AttemptDoes(cfg: Config, s: State, t: Id, th: InboundThread)
    requires t !in s.inbounds && th.pc.Attempting?
    ensures Apply(cfg, With(s, Receiving(t, th)), InboundStep(t, true, None))
         == With(s.(db := BumpAttempts(s.db, th.pc.session)), Receiving(t, th.(pc := FailCount(ClaimMismatch))))
  {}

  lemma FailCountDoes(cfg: Config, s: State, t: Id, th: InboundThread)
    requires t !in s.inbounds && th.pc.FailCount?
    ensures var n := CountBySender(s.db.events, th.req.sender, s.now - ABUSE_FAIL_WINDOW, true);
      Apply(cfg, With(s, Receiving(t, th)), InboundStep(t, true, None))
      == With(s, Receiving(t, th.(failedAt := Some(s.now),
           pc := if n + 1 >= ABUSE_FAIL_THRESHOLD then AddBlock(th.pc.reason, s.now) else FloodCount(th.pc.reason, s.now))))
  {}

  lemma FloodCountDoes(cfg: Config, s: State, t: Id, th: InboundThread)
    requires t !in s.inbounds && th.pc.FloodCount?
    ensures var n := CountBySender(s.db.events, th.req.sender, th.pc.at - ABUSE_FLOOD_WINDOW, false);
      Apply(cfg, With(s, Receiving(t, th)), InboundStep(t, true, None))
      == With(s, Receiving(t, th.(pc :=
           if n + 1 >= ABUSE_FLOOD_THRESHOLD then AddBlock(th.pc.reason, th.pc.at) else Auditing(Unmatched(th.pc.reason)))))
  {}

  lemma AddBlockDoes(cfg: Config, s: State, t: Id, th: InboundThread)
    requires t !in s.inbounds && th.pc.AddBlock?
    ensures var block := Block(th.req.sender, Some(th.pc.at + ABUSE_BLOCK_DURATION));
      Apply(cfg, With(s, Receiving(t, th)), InboundStep(t, true, None))
      == With(s.(db := s.db.(blocks := s.db.blocks + [block])), Receiving(t, th.(pc := Auditing(Unmatched(th.pc.reason)))))
  {}

  lemma VerifyDoes(cfg: Config, s: State, t: Id, th: InboundThread)
    requires t !in s.inbounds && th.pc.Verifying?
    ensures var (db, ok) := Verify(s.db, th.pc.session, th.req.sender);
      Apply(cfg, With(s, Receiving(t, th)), InboundStep(t, true, None))
      == With(s.(db := db), Receiving(t, th.(pc := if ok then Notifying(th.pc.session) else Auditing(Unmatched(AlreadyResolved)))))
  {}

  lemma NotifyDoes(cfg: Config, s: State, t: Id, th: InboundThread, appFound: bool)
    requires t !in s.inbounds && th.pc.Notifying?
    ensures var notified := if appFound then s.notified + [th.pc.session] else s.notified;
      Apply(cfg, With(s, Receiving(t, th)), InboundStep(t, appFound, None))
      == With(s.(notified := notified), Receiving(t, th.(pc := Auditing(Matched(th.pc.session)))))
  {}

  lemma AuditDoes(cfg: Config, s: State, t: Id, th: InboundThread)
    requires t !in s.inbounds && th.pc.Auditing?
    ensures var row := AuditRow(th, th.pc.outcome, s.now);
      Apply(cfg, With(s, Receiving(t, th)), InboundStep(t, true, None))
      == With(if ReferenceOk(cfg.backend, s.db, row.number) then s.(db := s.db.(events := s.db.events + [row]), log := s.log + [row]) else s,
              Receiving(t, th.(pc := InboundDone(th.pc.outcome))))
  {}

  /** What a matched answer says: the session is verified, by this sender, and with good reason. */
  lemma MatchedMeans(cfg: Config, acts: seq<Action>, t: Id, sid: Id)
    requires t in Exec(cfg, acts).inbounds && Exec(cfg, acts).inbounds[t].pc == InboundDone(Matched(sid))
    ensures var s := Exec(cfg, acts);
      && sid in s.db.sessions && s.db.sessions[sid].status == Verified
      && s.db.sessions[sid].verified == Some(s.inbounds[t].req.sender)
      && Soundness.Evidence(cfg, acts, t, s.inbounds[t], sid)
  {
    Resolution.Reachable(cfg, acts);
    Soundness.RunsAreJustified(cfg, acts);
    assert Resolution.Won(Exec(cfg, acts), t, sid);
    assert Soundness.Justified(cfg, acts, t, Exec(cfg, acts).inbounds[t]);
  }

  /** What a start's answer says about its request, however the run went on after it had begun. */
  lemma StartMeans(cfg: Config, was: seq<Action>, trace: seq<Action>, t: Id, req: StartRequest, o: StartOutcome)
    requires was + [BeginStart(t, req)] <= trace && t !in Exec(cfg, was).starts && StartAnswers.Answered(cfg, trace, t, o)
    ensures o == Invalid <==> StartAnswers.IsInvalid(req)
    ensures o.Started? ==>
      && o.session in Exec(cfg, trace).db.sessions
      && StartAnswers.CarriesTerms(cfg, req, Exec(cfg, was).now, Exec(cfg, trace).db.sessions[o.session], o.code)
  {
    assert trace[..|was|] == was && trace[|was|] == BeginStart(t, req);
    StartAnswers.InvalidExactly(cfg, trace, t, o, |was|, req);
    if o.Started? { StartAnswers.StartedAsAsked(cfg, trace, t, o.session, o.msisdn, o.code, |was|, req); }
  }

  // ---------------------------------------------------------------- the service

  class Service {
    const cfg: Config
    const store: Tables
    /** The clock, the other requests and the histories; the tables are the store's. */
    var around: State
    /** How many store calls the running request has made. */
    var calls: nat
    /** The whole run so far, its part before the running request's first step, and that request's steps. */
    ghost var trace: seq<Action>
    ghost var begun: seq<Action>
    ghost var steps: seq<Action>

    function World(): State reads this, store { around.(db := store.db) }

    ghost predicate Configured() { store.backend == cfg.backend && store.maxPending == cfg.maxPending }

    /** No request is half-way: the world is the one that the run so far reaches. */
    ghost predicate Valid() reads this, store {
      Configured() && World() == Exec(cfg, trace)
    }

    /** The run so far reaches the world with the running request's record put back. */
    ghost predicate Running(own: Own) reads this, store {
      && Configured() && Absent(World(), own) && Exec(cfg, trace) == With(World(), own)
    }

    ghost predicate Follows(own: Own, others: nat -> seq<Action>) reads this {
      calls == |steps| && IsWoven(own, others, begun, steps, trace) && AllForeign(own, others)
    }

    constructor (cfg: Config)
      ensures this.cfg == cfg && fresh(store) && Valid() && World() == INIT && trace == []
    {
      this.cfg := cfg;
      store := new Tables(cfg.backend, cfg.maxPending);
      around, calls := INIT, 0;
      trace, begun, steps := [], [], [];
    }

    /** Other requests' steps, one by one. */
    method Others(acts: seq<Action>, ghost own: Own)
      requires Running(own) && forall j | 0 <= j < |acts| :: Foreign(own, acts[j])
      modifies this, store
      ensures Running(own) && trace == old(trace) + acts && World() == ExecFrom(cfg, old(World()), acts)
      ensures calls == old(calls) && begun == old(begun) && steps == old(steps)
    {
      for i := 0 to |acts|
        invariant Running(own) && trace == old(trace) + acts[..i] && World() == ExecFrom(cfg, old(World()), acts[..i])
        invariant calls == old(calls) && begun == old(begun) && steps == old(steps)
      {
        ForeignStep(cfg, World(), own, acts[i]);
        Extend(cfg, trace, acts[i]);
        assert acts[..i + 1][..i] == acts[..i];
        around := Apply(cfg, World(), acts[i]);
        store.db := around.db;
        trace := trace + [acts[i]];
      }
      assert acts[..|acts|] == acts;
    }

    /** A request begins: a is its first action, and own its first record. */
    method Begin(ghost a: Action, ghost own: Own, ghost others: nat -> seq<Action>)
      requires Valid() && AllForeign(own, others) && Absent(World(), own) && Apply(cfg, World(), a) == With(World(), own)
      modifies this
      ensures Running(own) && Follows(own, others) && begun == old(trace) + [a]
      ensures around == old(around) && World() == old(World())
    {
      Extend(cfg, trace, a);
      trace := trace + [a];
      begun, steps, calls := trace, [], 0;
      assert begun + Woven(others, []) == trace;
    }

    /** What runs before the request's next store call. */
    method Wait(others: nat -> seq<Action>, ghost own: Own)
      requires Running(own) && Follows(own, others)
      modifies this, store
      ensures Running(own) && trace == old(trace) + others(calls) && World() == ExecFrom(cfg, old(World()), others(calls))
      ensures calls == old(calls) && begun == old(begun) && steps == old(steps)
    {
      Others(others(calls), own);
    }

    /** Book-keeping after a store call: the run has grown by the others' steps and the request's own. */
    method Did(ghost a: Action, ghost own: Own, ghost own': Own, others: nat -> seq<Action>, ghost before: seq<Action>)
      requires calls == |steps| && IsWoven(own, others, begun, steps, before) && trace == before + others(calls)
      requires AllForeign(own, others) && IsOwn(own, a)
      requires own'.t == own.t && (own.Starting? <==> own'.Starting?)
      requires Configured() && Absent(World(), own') && Apply(cfg, Exec(cfg, trace), a) == With(World(), own')
      modifies this
      ensures Running(own') && Follows(own', others)
      ensures World() == old(World()) && around == old(around) && begun == old(begun)
    {
      Extend(cfg, trace, a);
      WovenGrows(own, own', others, begun, steps, before, a);
      trace, steps, calls := trace + [a], steps + [a], calls + 1;
    }

    // -------------------------------------------------------------- Start

    method Pick(t: Id, plan: Plan, ghost th: StartThread, others: nat -> seq<Action>) returns (pick: Option<Id>, ghost th': StartThread)
      requires Running(Starting(t, th)) && Follows(Starting(t, th), others) && th.pc.Picking? && th.plan == plan
      modifies this, store
      ensures IsPick(store.db, cfg.maxPending, plan.channel, pick)
      ensures th' == th.(pc := if pick.None? then Counting else Creating(pick.value, store.db.numbers[pick.value].msisdn))
      ensures Running(Starting(t, th')) && Follows(Starting(t, th'), others) && begun == old(begun)
    {
      ghost var before := trace;
      Wait(others, Starting(t, th));
      pick := store.PickNumber(plan.channel);
      PickDoes(cfg, World(), t, th, pick);
      th' := th.(pc := if pick.None? then Counting else Creating(pick.value, store.db.numbers[pick.value].msisdn));
      Did(StartStep(t, pick, 0, ""), Starting(t, th), Starting(t, th'), others, before);
    }

    method Create(t: Id, plan: Plan, number: Id, code: string, ghost th: StartThread, others: nat -> seq<Action>)
      returns (r: Created, sid: Id, ghost th': StartThread)
      requires Running(Starting(t, th)) && Follows(Starting(t, th), others)
      requires th.pc.Creating? && th.plan == plan && th.pc.number == number && ValidCode(plan, code)
      modifies this, store
      ensures th' == AfterCreate(th, r, sid, code)
      ensures Running(Starting(t, th')) && Follows(Starting(t, th'), others) && begun == old(begun)
    {
      ghost var before := trace;
      Wait(others, Starting(t, th));
      ghost var was := World();
      ghost var unused := FreshNat(store.db.sessions.Keys);
      sid :| sid !in store.db.sessions;
      var row := Candidate(plan, number, code, around.now);
      r := store.CreateSession(sid, row);
      th' := AfterCreate(th, r, sid, code);
      CreateDoes(cfg, was, t, th, sid, code, r);
      Did(StartStep(t, None, sid, code), Starting(t, th), Starting(t, th'), others, before);
    }

    /** noNumberErr. */
    method NoNumber(t: Id, plan: Plan, ghost th: StartThread, others: nat -> seq<Action>) returns (outcome: StartOutcome, ghost th': StartThread)
      requires Running(Starting(t, th)) && Follows(Starting(t, th), others) && th.pc.Counting? && th.plan == plan
      modifies this, store
      ensures th' == th.(pc := StartDone(outcome))
      ensures Running(Starting(t, th')) && Follows(Starting(t, th'), others) && begun == old(begun)
    {
      ghost var before := trace;
      Wait(others, Starting(t, th));
      outcome := NoCapacity;
      if plan.channel == Call || plan.channel == Dtmf {
        var available := store.CountAvailableNumbers(plan.channel);
        if available > 0 { outcome := Busy(available); }
      }
      CountDoes(cfg, World(), t, th);
      th' := th.(pc := StartDone(outcome));
      Did(StartStep(t, None, 0, ""), Starting(t, th), Starting(t, th'), others, before);
    }

    /** One turn of the retry loop; None is to try again. */
    method Attempt(t: Id, plan: Plan, ghost th: StartThread, others: nat -> seq<Action>, draw: nat -> nat)
      returns (outcome: Option<StartOutcome>, ghost th': StartThread)
      requires Running(Starting(t, th)) && Follows(Starting(t, th), others) && th.pc.Picking? && th.plan == plan
      requires (forall i :: draw(i) < 10) && Codes.CodeLength(plan.codeLen) == plan.codeLen
      modifies this, store
      ensures outcome.Some? ==> th' == th.(pc := StartDone(outcome.value))
      ensures outcome.None? ==>
        th' == th.(attempt := th.attempt + 1, pc := if th.attempt + 1 < MAX_START_ATTEMPTS then Picking else Counting)
      ensures Running(Starting(t, th')) && Follows(Starting(t, th'), others) && begun == old(begun)
    {
      var pick;
      pick, th' := Pick(t, plan, th, others);
      if pick.None? {
        var answer;
        answer, th' := NoNumber(t, plan, th', others);
        return Some(answer), th';
      }
      var msisdn, code := store.db.numbers[pick.value].msisdn, "";
      if NeedsCode(plan.channel) { code := Codes.GenerateCode(plan.codeLen, draw); }
      var created, sid;
      created, sid, th' := Create(t, plan, pick.value, code, th', others);
      match created {
        case Inserted => outcome := Some(Started(sid, msisdn, code));
        case BadReference => outcome := Some(StoreFailed);
        case Conflict => outcome := None;
      }
    }

    /** The retry loop. */
    method PickAndCreate(t: Id, plan: Plan, others: nat -> seq<Action>, draw: (nat, nat) -> nat)
      returns (outcome: StartOutcome, attempt: nat)
      requires Running(Starting(t, StartThread(plan, 0, Picking))) && Follows(Starting(t, StartThread(plan, 0, Picking)), others)
      requires (forall i, j :: draw(i, j) < 10) && Codes.CodeLength(plan.codeLen) == plan.codeLen
      modifies this, store
      ensures var own := Starting(t, StartThread(plan, attempt, StartDone(outcome)));
        Running(own) && Follows(own, others) && begun == old(begun)
    {
      attempt := 0;
      ghost var th := StartThread(plan, 0, Picking);
      while attempt < MAX_START_ATTEMPTS
        invariant attempt <= MAX_START_ATTEMPTS && begun == old(begun)
        invariant th == StartThread(plan, attempt, if attempt < MAX_START_ATTEMPTS then Picking else Counting)
        invariant Running(Starting(t, th)) && Follows(Starting(t, th), others)
      {
        var answer;
        var k := attempt;
        answer, th := Attempt(t, plan, th, others, i => draw(k, i));
        if answer.Some? { return answer.value, attempt; }
        attempt := attempt + 1;
      }
      outcome, th := NoNumber(t, plan, th, others);
    }

    /**
     Start, amid whatever the other requests do before each of its store calls: the run grows by
     the request's beginning and its steps woven into theirs, and ends in the answer returned.
     */
    method Start(t: Id, req: StartRequest, others: nat -> seq<Action>, draw: (nat, nat) -> nat) returns (outcome: StartOutcome)
      requires Valid() && t !in around.starts && (forall i, j :: draw(i, j) < 10)
      requires AllForeign(Starting(t, StartThread(NO_PLAN, 0, Picking)), others)
      modifies this, store
      ensures Valid() && t in around.starts && around.starts[t].pc == StartDone(outcome)
      ensures begun == old(trace) + [BeginStart(t, req)] && Follows(Starting(t, around.starts[t]), others)
      ensures outcome == Invalid <==> StartAnswers.IsInvalid(req)
      ensures outcome.Started? ==>
        && Completeness.StartedOk(World(), around.starts[t]) && outcome.session in store.db.sessions
        && StartAnswers.CarriesTerms(cfg, req, old(around.now), store.db.sessions[outcome.session], outcome.code)
    {
      ghost var was := trace;
      var validated := PlanOf(cfg, req, around.now);
      ghost var first := if validated.None? then StartThread(NO_PLAN, 0, StartDone(Invalid)) else StartThread(validated.value, 0, Picking);
      BeginStartDoes(cfg, World(), t, req);
      ForeignToAll(Starting(t, StartThread(NO_PLAN, 0, Picking)), Starting(t, first), others);
      Begin(BeginStart(t, req), Starting(t, first), others);
      var attempt, plan := 0, NO_PLAN;
      if validated.None? {
        outcome := Invalid;
      } else {
        plan := validated.value;
        outcome, attempt := PickAndCreate(t, plan, others, draw);
      }
      FinishStart(t, StartThread(plan, attempt, StartDone(outcome)), others);
      Completeness.Reachable(cfg, trace);
      StartMeans(cfg, was, trace, t, req, outcome);
    }

    /** The answered start's record joins the history. */
    method FinishStart(t: Id, th: StartThread, ghost others: nat -> seq<Action>)
      requires Running(Starting(t, th)) && Follows(Starting(t, th), others)
      modifies this
      ensures Valid() && t in around.starts && around.starts[t] == th && Follows(Starting(t, th), others)
      ensures begun == old(begun) && trace == old(trace)
    {
      around := around.(starts := around.starts[t := th]);
    }

    // -------------------------------------------------------------- Inbound

    method LookUp(t: Id, req: InboundRequest, ghost th: InboundThread, others: nat -> seq<Action>)
      returns (pick: Option<Id>, ghost th': InboundThread)
      requires Running(Receiving(t, th)) && Follows(Receiving(t, th), others) && th.pc.Lookup? && th.req == req
      modifies this, store
      ensures IsNumberLookup(store.db, req.number, pick) && th' == AfterLookup(store.db, th, pick)
      ensures Running(Receiving(t, th')) && Follows(Receiving(t, th'), others) && begun == old(begun)
    {
      ghost var before := trace;
      Wait(others, Receiving(t, th));
      pick := store.GetNumberByMsisdn(req.number);
      LookupDoes(cfg, World(), t, th, pick);
      th' := AfterLookup(store.db, th, pick);
      Did(InboundStep(t, true, pick), Receiving(t, th), Receiving(t, th'), others, before);
    }

    /** The block list, then the limiter, whose answer is admitted. */
    method Admit(t: Id, req: InboundRequest, admitted: bool, ghost th: InboundThread, others: nat -> seq<Action>)
      returns (refusal: Option<Reason>, ghost th': InboundThread)
      requires Running(Receiving(t, th)) && Follows(Receiving(t, th), others) && th.pc.BlockCheck? && th.req == req
      modifies this, store
      ensures th' == th.(pc := if refusal.None? then Matching else Auditing(Unmatched(refusal.value)))
      ensures Running(Receiving(t, th')) && Follows(Receiving(t, th'), others) && begun == old(begun)
    {
      ghost var before := trace;
      Wait(others, Receiving(t, th));
      var blocked := store.CheckBlocked(req.sender, around.now);
      BlockCheckDoes(cfg, World(), t, th);
      th' := th.(pc := if blocked then Auditing(Unmatched(Blocked)) else Throttle);
      Did(InboundStep(t, true, None), Receiving(t, th), Receiving(t, th'), others, before);
      if blocked { return Some(Blocked), th'; }
      before := trace;
      Wait(others, Receiving(t, th'));
      ThrottleDoes(cfg, World(), t, th', admitted);
      ghost var now := th'.(pc := if admitted then Matching else Auditing(Unmatched(RateLimited)));
      Did(InboundStep(t, admitted, None), Receiving(t, th'), Receiving(t, now), others, before);
      return if admitted then None else Some(RateLimited), now;
    }

    /** matchSession, and the claim check on the row found. */
    method MatchSession(t: Id, req: InboundRequest, number: Id, ghost th: InboundThread, others: nat -> seq<Action>)
      returns (found: Option<Id>, claimOk: bool, ghost th': InboundThread)
      requires Running(Receiving(t, th)) && Follows(Receiving(t, th), others) && th.pc.Matching? && th.req == req && th.number == number
      modifies this, store
      ensures th' == th.(pc := if found.None? then FailCount(NoMatch) else if claimOk then Verifying(found.value) else Attempting(found.value))
      ensures Running(Receiving(t, th')) && Follows(Receiving(t, th'), others) && begun == old(begun)
    {
      ghost var before := trace;
      Wait(others, Receiving(t, th));
      var code := Codes.ExtractCodeScan(req.body);
      found, claimOk := None, true;
      if req.kind == "sms" {
        if code != "" { found := store.FindPending(ByCode(number, code, Sms), around.now); }
      } else if TrimSpace(req.body) != "" {
        if code != "" { found := store.FindPending(ByCode(number, code, Dtmf), around.now); }
      } else {
        found := store.FindPending(MissedCall(number, req.sender), around.now);
      }
      MatchDoes(cfg, World(), t, th, found);
      if found.Some? {
        var sess := store.db.sessions[found.value];
        claimOk := !(sess.binding == Claim && (sess.claimed.None? || sess.claimed.value != req.sender));
      }
      th' := th.(pc := if found.None? then FailCount(NoMatch) else if claimOk then Verifying(found.value) else Attempting(found.value));
      Did(InboundStep(t, true, found), Receiving(t, th), Receiving(t, th'), others, before);
    }

    method CountAttempt(t: Id, sid: Id, ghost th: InboundThread, others: nat -> seq<Action>) returns (ghost th': InboundThread)
      requires Running(Receiving(t, th)) && Follows(Receiving(t, th), others) && th.pc == Attempting(sid)
      modifies this, store
      ensures th' == th.(pc := FailCount(ClaimMismatch))
      ensures Running(Receiving(t, th')) && Follows(Receiving(t, th'), others) && begun == old(begun)
    {
      ghost var before := trace;
      Wait(others, Receiving(t, th));
      AttemptDoes(cfg, World(), t, th);
      store.IncrementAttempts(sid);
      th' := th.(pc := FailCount(ClaimMismatch));
      Did(InboundStep(t, true, None), Receiving(t, th), Receiving(t, th'), others, before);
    }

    /** Too many unmatched signals of the sender in the failure window; at is the clock reading. */
    method FailsTooOften(t: Id, sender: string, ghost th: InboundThread, others: nat -> seq<Action>)
      returns (abusive: bool, at: Millis, ghost th': InboundThread)
      requires Running(Receiving(t, th)) && Follows(Receiving(t, th), others) && th.pc.FailCount? && th.req.sender == sender
      modifies this, store
      ensures th' == th.(failedAt := Some(at), pc := if abusive then AddBlock(th.pc.reason, at) else FloodCount(th.pc.reason, at))
      ensures Running(Receiving(t, th')) && Follows(Receiving(t, th'), others) && begun == old(begun)
    {
      ghost var before := trace;
      Wait(others, Receiving(t, th));
      at := around.now;
      var n := store.CountInboundBySender(sender, at - ABUSE_FAIL_WINDOW, true);
      abusive := n + 1 >= ABUSE_FAIL_THRESHOLD;
      FailCountDoes(cfg, World(), t, th);
      th' := th.(failedAt := Some(at), pc := if abusive then AddBlock(th.pc.reason, at) else FloodCount(th.pc.reason, at));
      Did(InboundStep(t, true, None), Receiving(t, th), Receiving(t, th'), others, before);
    }

    /** Too many signals of the sender, matched or not, in the flood window. */
    method Floods(t: Id, sender: string, at: Millis, ghost th: InboundThread, others: nat -> seq<Action>)
      returns (abusive: bool, ghost th': InboundThread)
      requires Running(Receiving(t, th)) && Follows(Receiving(t, th), others)
      requires th.pc.FloodCount? && th.pc.at == at && th.req.sender == sender
      modifies this, store
      ensures th' == th.(pc := if abusive then AddBlock(th.pc.reason, at) else Auditing(Unmatched(th.pc.reason)))
      ensures Running(Receiving(t, th')) && Follows(Receiving(t, th'), others) && begun == old(begun)
    {
      ghost var before := trace;
      Wait(others, Receiving(t, th));
      var n := store.CountInboundBySender(sender, at - ABUSE_FLOOD_WINDOW, false);
      abusive := n + 1 >= ABUSE_FLOOD_THRESHOLD;
      FloodCountDoes(cfg, World(), t, th);
      th' := th.(pc := if abusive then AddBlock(th.pc.reason, at) else Auditing(Unmatched(th.pc.reason)));
      Did(InboundStep(t, true, None), Receiving(t, th), Receiving(t, th'), others, before);
    }

    method PlaceBlock(t: Id, sender: string, at: Millis, ghost th: InboundThread, others: nat -> seq<Action>) returns (ghost th': InboundThread)
      requires Running(Receiving(t, th)) && Follows(Receiving(t, th), others)
      requires th.pc.AddBlock? && th.pc.at == at && th.req.sender == sender
      modifies this, store
      ensures th' == th.(pc := Auditing(Unmatched(th.pc.reason)))
      ensures store.db.blocks != [] && store.db.blocks[|store.db.blocks| - 1] == Block(sender, Some(at + 60 * 60 * 1000))
      ensures Running(Receiving(t, th')) && Follows(Receiving(t, th'), others) && begun == old(begun)
    {
      ghost var before := trace;
      Wait(others, Receiving(t, th));
      AddBlockDoes(cfg, World(), t, th);
      store.CreateBlock(sender, Some(at + ABUSE_BLOCK_DURATION));
      th' := th.(pc := Auditing(Unmatched(th.pc.reason)));
      Did(InboundStep(t, true, None), Receiving(t, th), Receiving(t, th'), others, before);
    }

    method MaybeBlock(t: Id, sender: string, ghost th: InboundThread, others: nat -> seq<Action>)
      returns (abusive: bool, at: Millis, ghost th': InboundThread)
      requires Running(Receiving(t, th)) && Follows(Receiving(t, th), others) && th.pc.FailCount? && th.req.sender == sender
      modifies this, store
      ensures abusive ==> store.db.blocks != [] && store.db.blocks[|store.db.blocks| - 1] == Block(sender, Some(at + 60 * 60 * 1000))
      ensures th' == th.(failedAt := Some(at), pc := Auditing(Unmatched(th.pc.reason)))
      ensures Running(Receiving(t, th')) && Follows(Receiving(t, th'), others) && begun == old(begun)
    {
      abusive, at, th' := IsAbusive(t, sender, th, others);
      if abusive { th' := PlaceBlock(t, sender, at, th', others); }
    }

    /** The two counts, the second only if the first finds too little. */
    method IsAbusive(t: Id, sender: string, ghost th: InboundThread, others: nat -> seq<Action>)
      returns (abusive: bool, at: Millis, ghost th': InboundThread)
      requires Running(Receiving(t, th)) && Follows(Receiving(t, th), others) && th.pc.FailCount? && th.req.sender == sender
      modifies this, store
      ensures th' == th.(failedAt := Some(at), pc := if abusive then AddBlock(th.pc.reason, at) else Auditing(Unmatched(th.pc.reason)))
      ensures Running(Receiving(t, th')) && Follows(Receiving(t, th'), others) && begun == old(begun)
    {
      abusive, at, th' := FailsTooOften(t, sender, th, others);
      if !abusive { abusive, th' := Floods(t, sender, at, th', others); }
    }

    /** The compare-and-set and, if it won, the notification. */
    method Resolve(t: Id, sid: Id, sender: string, appFound: bool, ghost th: InboundThread, others: nat -> seq<Action>)
      returns (won: bool, ghost th': InboundThread)
      requires Running(Receiving(t, th)) && Follows(Receiving(t, th), others) && th.pc == Verifying(sid) && th.req.sender == sender
      modifies this, store
      ensures th' == th.(pc := Auditing(if won then Matched(sid) else Unmatched(AlreadyResolved)))
      ensures Running(Receiving(t, th')) && Follows(Receiving(t, th'), others) && begun == old(begun)
    {
      ghost var before := trace;
      Wait(others, Receiving(t, th));
      VerifyDoes(cfg, World(), t, th);
      won := store.VerifySession(sid, sender);
      th' := th.(pc := if won then Notifying(sid) else Auditing(Unmatched(AlreadyResolved)));
      Did(InboundStep(t, true, None), Receiving(t, th), Receiving(t, th'), others, before);
      if won {
        before := trace;
        Wait(others, Receiving(t, th'));
        NotifyDoes(cfg, World(), t, th', appFound);
        if appFound { around := around.(notified := around.notified + [sid]); }
        ghost var now := th'.(pc := Auditing(Matched(sid)));
        Did(InboundStep(t, appFound, None), Receiving(t, th'), Receiving(t, now), others, before);
        th' := now;
      }
    }

    /** The deferred event: matched is the session this request verified, if any. */
    method Audit(t: Id, req: InboundRequest, number: Id, matched: Option<Id>, ghost th: InboundThread, others: nat -> seq<Action>)
      returns (ghost th': InboundThread)
      requires Running(Receiving(t, th)) && Follows(Receiving(t, th), others) && th.req == req && th.number == number
      requires th.pc.Auditing? && matched == if th.pc.outcome.Matched? then Some(th.pc.outcome.session) else None
      modifies this, store
      ensures th' == th.(pc := InboundDone(th.pc.outcome))
      ensures Running(Receiving(t, th')) && Follows(Receiving(t, th'), others) && begun == old(begun)
    {
      ghost var before := trace;
      Wait(others, Receiving(t, th));
      AuditDoes(cfg, World(), t, th);
      var row := Event(Some(number), req.kind, req.sender, req.body, matched, around.now);
      var ok := store.CreateInboundEvent(row);
      if ok { around := around.(log := around.log + [row]); }
      th' := th.(pc := InboundDone(th.pc.outcome));
      Did(InboundStep(t, true, None), Receiving(t, th), Receiving(t, th'), others, before);
    }

    /** Everything between the ownership check and the deferred event. */
    method Decide(t: Id, req: InboundRequest, number: Id, admitted: bool, appFound: bool, ghost th: InboundThread, others: nat -> seq<Action>)
      returns (outcome: InboundOutcome, matched: Option<Id>, failedAt: Option<Millis>, ghost th': InboundThread)
      requires Running(Receiving(t, th)) && Follows(Receiving(t, th), others) && th == InboundThread(req, number, None, BlockCheck)
      modifies this, store
      ensures th' == InboundThread(req, number, failedAt, Auditing(outcome))
      ensures matched == if outcome.Matched? then Some(outcome.session) else None
      ensures Running(Receiving(t, th')) && Follows(Receiving(t, th'), others) && begun == old(begun)
    {
      matched, failedAt := None, None;
      var refusal, found, claimOk, abusive, at, won;
      refusal, th' := Admit(t, req, admitted, th, others);
      if refusal.Some? { outcome := Unmatched(refusal.value); return; }
      found, claimOk, th' := MatchSession(t, req, number, th', others);
      if found.None? {
        abusive, at, th' := MaybeBlock(t, req.sender, th', others);
        return Unmatched(NoMatch), None, Some(at), th';
      }
      if !claimOk {
        th' := CountAttempt(t, found.value, th', others);
        abusive, at, th' := MaybeBlock(t, req.sender, th', others);
        return Unmatched(ClaimMismatch), None, Some(at), th';
      }
      won, th' := Resolve(t, found.value, req.sender, appFound, th', others);
      if !won { outcome := Unmatched(AlreadyResolved); return; }
      matched, outcome := found, Matched(found.value);
    }

    /** Lookup and ownership check, then, for the number's own device, the decision and its event. */
    method Report(t: Id, req: InboundRequest, admitted: bool, appFound: bool, others: nat -> seq<Action>)
      returns (outcome: InboundOutcome, number: Id, failedAt: Option<Millis>)
      requires Running(Receiving(t, InboundThread(req, 0, None, Lookup))) && Follows(Receiving(t, InboundThread(req, 0, None, Lookup)), others)
      modifies this, store
      ensures var own := Receiving(t, InboundThread(req, number, failedAt, InboundDone(outcome)));
        Running(own) && Follows(own, others) && begun == old(begun)
    {
      number, failedAt := 0, None;
      ghost var th := InboundThread(req, 0, None, Lookup);
      var pick;
      pick, th := LookUp(t, req, th, others);
      if pick.None? { outcome := Unmatched(UnknownNumber); return; }
      if store.db.numbers[pick.value].device != req.device { outcome := Forbidden; return; }
      number := pick.value;
      var matched;
      outcome, matched, failedAt, th := Decide(t, req, number, admitted, appFound, th, others);
      th := Audit(t, req, number, matched, th, others);
    }

    /**
     Inbound, amid whatever the other requests do before each of its steps: again the run grows
     by this request's steps woven into theirs, and ends in the answer returned.
     */
    method Inbound(t: Id, req: InboundRequest, others: nat -> seq<Action>, admitted: bool, appFound: bool) returns (outcome: InboundOutcome)
      requires Valid() && t !in around.inbounds
      requires AllForeign(Receiving(t, InboundThread(req, 0, None, Lookup)), others)
      modifies this, store
      ensures Valid() && t in around.inbounds && around.inbounds[t].pc == InboundDone(outcome)
      ensures begun == old(trace) + [BeginInbound(t, req)] && Follows(Receiving(t, around.inbounds[t]), others)
      ensures around.inbounds[t].req == req && InboundAnswers.GivenExactly(cfg, trace, t, around.inbounds[t], outcome)
      ensures outcome.Matched? ==>
        && outcome.session in store.db.sessions && store.db.sessions[outcome.session].status == Verified
        && store.db.sessions[outcome.session].verified == Some(req.sender)
        && Soundness.Evidence(cfg, trace, t, around.inbounds[t], outcome.session)
    {
      ghost var first := InboundThread(req, 0, None, if req.kind == "sms" || req.kind == "call" then Lookup else InboundDone(BadType));
      ForeignToAll(Receiving(t, InboundThread(req, 0, None, Lookup)), Receiving(t, first), others);
      Begin(BeginInbound(t, req), Receiving(t, first), others);
      var number, failedAt := 0, None;
      if req.kind != "sms" && req.kind != "call" {
        outcome := BadType;
      } else {
        outcome, number, failedAt := Report(t, req, admitted, appFound, others);
      }
      FinishInbound(t, InboundThread(req, number, failedAt, InboundDone(outcome)), others);
      InboundAnswers.AnswersExactly(cfg, trace, t, outcome);
      if outcome.Matched? { MatchedMeans(cfg, trace, t, outcome.session); }
    }

    /** The answered inbound's record joins the history. */
    method FinishInbound(t: Id, th: InboundThread, ghost others: nat -> seq<Action>)
      requires Running(Receiving(t, th)) && Follows(Receiving(t, th), others)
      modifies this
      ensures Valid() && t in around.inbounds && around.inbounds[t] == th && Follows(Receiving(t, th), others)
      ensures begun == old(begun) && trace == old(trace) && store.db == old(store.db)
    {
      around := around.(inbounds := around.inbounds[t := th]);
    }
  }
}
