/**
 The two store backends agree on device deletion (store/sqlite.go, store/postgres.go,
 migrations/0001_init.sql): SQLite leaves a session's number reference dangling, Postgres
 nulls it, and no later answer can tell them apart.

 The proof is a commuting square. `View` turns a SQLite state into the Postgres state of the
 same run; every action commutes with it as long as no request in flight holds a number of a
 device that is being deleted. That condition is exact: a holder tells the backends apart.
 */
module Backends {
  import opened Wrappers
  import opened Store
  import opened Protocol
  import Tables

  function Nulled(numbers: map<Id, Number>, ref: Option<Id>): Option<Id> { Detached(Postgres, numbers, ref) }

  function ViewSessions(db: Db): map<Id, Session> {
    map sid | sid in db.sessions :: db.sessions[sid].(number := Nulled(db.numbers, db.sessions[sid].number))
  }

  function ViewEvents(numbers: map<Id, Number>, events: seq<Event>): (r: seq<Event>)
    ensures |r| == |events|
    ensures forall i | 0 <= i < |events| :: r[i] == events[i].(number := Nulled(numbers, events[i].number))
  {
    seq(|events|, i requires 0 <= i < |events| => events[i].(number := Nulled(numbers, events[i].number)))
  }

  function ViewDb(db: Db): Db { db.(sessions := ViewSessions(db), events := ViewEvents(db.numbers, db.events)) }

  function View(s: State): State { s.(db := ViewDb(s.db)) }

  // ---------------------------------------------------------------- queries see no difference

  lemma SameLoad(db: Db, n: Id)
    requires n in db.numbers
    ensures PendingOn(ViewDb(db), n) == PendingOn(db, n)
    ensures VoiceBusy(ViewDb(db), n) == VoiceBusy(db, n)
  {
    assert forall sid | sid in db.sessions :: IsPendingOn(ViewDb(db).sessions[sid], n) == IsPendingOn(db.sessions[sid], n);
  }

  lemma SamePick(db: Db, maxPending: nat, c: Channel, pick: Option<Id>)
    ensures IsPick(ViewDb(db), maxPending, c, pick) == IsPick(db, maxPending, c, pick)
    ensures Serving(ViewDb(db), c) == Serving(db, c)
  {
    forall n | n in db.numbers
      ensures PendingOn(ViewDb(db), n) == PendingOn(db, n)
      ensures Eligible(ViewDb(db), maxPending, n, c) == Eligible(db, maxPending, n, c)
    {
      SameLoad(db, n);
    }
    assert forall n :: Serves(ViewDb(db), n, c) == Serves(db, n, c);
  }

  lemma SameConflicts(db: Db, cand: Session)
    requires cand.number.Some? && cand.number.value in db.numbers
    ensures Conflicts(ViewDb(db), cand) == Conflicts(db, cand)
  {
    forall sid | sid in db.sessions
      ensures (ViewDb(db).sessions[sid].number == cand.number) == (db.sessions[sid].number == cand.number)
    {}
  }

  lemma SameFound(db: Db, target: Target, now: Millis, pick: Option<Id>)
    requires target.number in db.numbers
    ensures IsFound(ViewDb(db), target, now, pick) == IsFound(db, target, now, pick)
  {
    assert forall sid | sid in db.sessions :: Hits(target, ViewDb(db).sessions[sid], now) == Hits(target, db.sessions[sid], now);
  }

  lemma {:induction false} SameCount(numbers: map<Id, Number>, events: seq<Event>, sender: string, since: Millis, unmatchedOnly: bool)
    ensures CountBySender(ViewEvents(numbers, events), sender, since, unmatchedOnly)
         == CountBySender(events, sender, since, unmatchedOnly)
  {
    if events != [] {
      var n := |events| - 1;
      assert ViewEvents(numbers, events)[..n] == ViewEvents(numbers, events[..n]);
      SameCount(numbers, events[..n], sender, since, unmatchedOnly);
    }
  }

  // ---------------------------------------------------------------- updates commute

  lemma InsertCommutes(db: Db, sid: Id, s: Session)
    requires s.number.Some? ==> s.number.value in db.numbers
    ensures ViewDb(Insert(db, sid, s)) == Insert(ViewDb(db), sid, s)
  {
    assert ViewSessions(Insert(db, sid, s)) == ViewSessions(db)[sid := s];
  }

  lemma VerifyCommutes(db: Db, sid: Id, msisdn: string)
    ensures Verify(ViewDb(db), sid, msisdn) == (ViewDb(Verify(db, sid, msisdn).0), Verify(db, sid, msisdn).1)
  {
    assert ViewSessions(Verify(db, sid, msisdn).0) == Verify(ViewDb(db), sid, msisdn).0.sessions;
  }

  lemma BumpCommutes(db: Db, sid: Id)
    ensures ViewDb(BumpAttempts(db, sid)) == BumpAttempts(ViewDb(db), sid)
  {
    assert ViewSessions(BumpAttempts(db, sid)) == BumpAttempts(ViewDb(db), sid).sessions;
  }

  lemma ExpireCommutes(db: Db, now: Millis)
    ensures ViewDb(ExpireDue(db, now)) == ExpireDue(ViewDb(db), now)
  {
    assert ViewSessions(ExpireDue(db, now)) == ExpireDue(ViewDb(db), now).sessions;
  }

  lemma {:induction false} PruneCommutes(numbers: map<Id, Number>, events: seq<Event>, cutoff: Millis)
    ensures ViewEvents(numbers, PruneBefore(events, cutoff)) == PruneBefore(ViewEvents(numbers, events), cutoff)
  {
    if events != [] {
      var n := |events| - 1;
      assert ViewEvents(numbers, events)[..n] == ViewEvents(numbers, events[..n]);
      PruneCommutes(numbers, events[..n], cutoff);
    }
  }

  lemma AppendCommutes(numbers: map<Id, Number>, events: seq<Event>, e: Event)
    requires e.number.Some? && e.number.value in numbers
    ensures ViewEvents(numbers, events + [e]) == ViewEvents(numbers, events) + [e]
  {}

  /** References only name numbers that once existed, so a fresh number revives none. */
  ghost predicate RefsUsed(s: State) {
    && s.db.numbers.Keys <= s.usedNumbers
    && (forall sid | sid in s.db.sessions && s.db.sessions[sid].number.Some? :: s.db.sessions[sid].number.value in s.usedNumbers)
    && EventRefsUsed(s.db.events, s.usedNumbers)
  }

  ghost predicate EventRefsUsed(events: seq<Event>, used: set<Id>) {
    forall e | e in events :: e.number.None? || e.number.value in used
  }

  lemma AddNumberCommutes(s: State, num: Id, row: Number)
    requires RefsUsed(s) && num !in s.usedNumbers
    ensures ViewDb(s.db.(numbers := s.db.numbers[num := row])) == ViewDb(s.db).(numbers := s.db.numbers[num := row])
  {
    var db' := s.db.(numbers := s.db.numbers[num := row]);
    assert ViewSessions(db') == ViewSessions(s.db);
    assert ViewEvents(db'.numbers, s.db.events) == ViewEvents(s.db.numbers, s.db.events);
  }

  lemma DeleteCommutes(db: Db, dev: Id)
    ensures DeleteDevice(Postgres, ViewDb(db), dev) == ViewDb(DeleteDevice(Sqlite, db, dev))
  {
    if dev in db.devices {
      var a, b := ViewDb(DeleteDevice(Sqlite, db, dev)), DeleteDevice(Postgres, ViewDb(db), dev);
      assert a.sessions == b.sessions;
      assert a.events == b.events;
    }
  }

  // ---------------------------------------------------------------- requests hold live numbers

  ghost predicate LiveStart(db: Db, th: StartThread) { th.pc.Creating? ==> th.pc.number in db.numbers }

  ghost predicate LiveInbound(db: Db, th: InboundThread) {
    InboundInFlight(th) && !th.pc.Lookup? ==> th.number in db.numbers
  }

  ghost predicate Live(s: State) {
    && RefsUsed(s)
    && (forall t | t in s.starts :: LiveStart(s.db, s.starts[t]))
    && (forall t | t in s.inbounds :: LiveInbound(s.db, s.inbounds[t]))
  }

  /** The numbers that deleting the device takes with it. */
  function Removed(db: Db, dev: Id): set<Id> {
    if dev in db.devices then set n | n in db.numbers && db.numbers[n].device == dev else {}
  }

  predicate StartHolds(th: StartThread, numbers: set<Id>) { th.pc.Creating? && th.pc.number in numbers }

  predicate InboundHolds(th: InboundThread, numbers: set<Id>) {
    InboundInFlight(th) && !th.pc.Lookup? && th.number in numbers
  }

  /** No start between pick and insert, and no inbound past its lookup, is on a number of the device. */
  ghost predicate Unheld(s: State, dev: Id) {
    && (forall t | t in s.starts :: !StartHolds(s.starts[t], Removed(s.db, dev)))
    && (forall t | t in s.inbounds :: !InboundHolds(s.inbounds[t], Removed(s.db, dev)))
  }

  ghost predicate DeletesUnheld(s: State, a: Action) { a.RemoveDevice? ==> Unheld(s, a.dev) }

  lemma StartKeepsLive(cfg: Config, s: State, t: Id, pick: Option<Id>, sid: Id, code: string)
    requires Live(s)
    ensures Live(StepStart(cfg, s, t, pick, sid, code))
  {
    if t in s.starts { assert LiveStart(s.db, s.starts[t]); }
  }

  lemma AdmissionKeepsLive(s: State, t: Id, yes: bool, pick: Option<Id>)
    requires Live(s) && t in s.inbounds && InAdmission(s.inbounds[t].pc)
    ensures Live(StepAdmission(s, t, s.inbounds[t], yes, pick))
  {
    assert LiveInbound(s.db, s.inbounds[t]);
  }

  lemma FailureKeepsLive(s: State, t: Id)
    requires Live(s) && t in s.inbounds && InFailure(s.inbounds[t].pc)
    ensures Live(StepFailure(s, t, s.inbounds[t]))
  {
    assert LiveInbound(s.db, s.inbounds[t]);
  }

  lemma ResolutionKeepsLive(cfg: Config, s: State, t: Id, yes: bool)
    requires Live(s) && t in s.inbounds && !InAdmission(s.inbounds[t].pc) && !InFailure(s.inbounds[t].pc)
    ensures Live(StepResolution(cfg, s, t, s.inbounds[t], yes))
  {
    assert LiveInbound(s.db, s.inbounds[t]);
  }

  lemma {:induction false} PruneKeepsRefs(events: seq<Event>, cutoff: Millis, used: set<Id>)
    requires EventRefsUsed(events, used)
    ensures EventRefsUsed(PruneBefore(events, cutoff), used)
  {
    if events != [] { PruneKeepsRefs(events[..|events| - 1], cutoff, used); }
  }

  lemma LiveStep(cfg: Config, s: State, a: Action)
    requires Live(s) && DeletesUnheld(s, a)
    ensures Live(Apply(cfg, s, a))
  {
    match a {
      case StartStep(t, pick, sid, code) => StartKeepsLive(cfg, s, t, pick, sid, code);
      case InboundStep(t, yes, pick) =>
        if t in s.inbounds {
          var pc := s.inbounds[t].pc;
          if InAdmission(pc) { AdmissionKeepsLive(s, t, yes, pick); }
          else if InFailure(pc) { FailureKeepsLive(s, t); }
          else { ResolutionKeepsLive(cfg, s, t, yes); }
        }
      case Prune(retention) => PruneKeepsRefs(s.db.events, s.now - retention, s.usedNumbers);
      case RemoveDevice(dev) => DeleteKeepsLive(cfg, s, dev);
      case _ =>
    }
  }

  lemma DeleteKeepsLive(cfg: Config, s: State, dev: Id)
    requires Live(s) && Unheld(s, dev)
    ensures Live(Apply(cfg, s, RemoveDevice(dev)))
  {
    var db' := DeleteDevice(cfg.backend, s.db, dev);
    assert forall n | n in s.db.numbers && n !in Removed(s.db, dev) :: n in db'.numbers;
    forall t | t in s.starts
      ensures LiveStart(db', s.starts[t])
    {
      assert LiveStart(s.db, s.starts[t]) && !StartHolds(s.starts[t], Removed(s.db, dev));
    }
    forall t | t in s.inbounds
      ensures LiveInbound(db', s.inbounds[t])
    {
      assert LiveInbound(s.db, s.inbounds[t]) && !InboundHolds(s.inbounds[t], Removed(s.db, dev));
    }
  }

  // ---------------------------------------------------------------- every action commutes

  lemma StartCommutes(cfg: Config, s: State, t: Id, pick: Option<Id>, sid: Id, code: string)
    requires Live(s)
    ensures View(StepStart(cfg.(backend := Sqlite), s, t, pick, sid, code))
         == StepStart(cfg.(backend := Postgres), View(s), t, pick, sid, code)
  {
    if t in s.starts {
      var th := s.starts[t];
      assert LiveStart(s.db, th);
      if th.pc.Creating? {
        CreatingCommutes(cfg, s, t, pick, sid, code);
      } else {
        SamePick(s.db, cfg.maxPending, th.plan.channel, pick);
      }
    }
  }

  lemma CreatingCommutes(cfg: Config, s: State, t: Id, pick: Option<Id>, sid: Id, code: string)
    requires t in s.starts && s.starts[t].pc.Creating? && LiveStart(s.db, s.starts[t])
    ensures View(StepStart(cfg.(backend := Sqlite), s, t, pick, sid, code))
         == StepStart(cfg.(backend := Postgres), View(s), t, pick, sid, code)
  {
    var th := s.starts[t];
    var cand := Candidate(th.plan, th.pc.number, code, s.now);
    SameConflicts(s.db, cand);
    InsertCommutes(s.db, sid, cand);
  }

  lemma AdmissionCommutes(s: State, t: Id, yes: bool, pick: Option<Id>)
    requires Live(s) && t in s.inbounds && InAdmission(s.inbounds[t].pc)
    ensures View(StepAdmission(s, t, s.inbounds[t], yes, pick)) == StepAdmission(View(s), t, s.inbounds[t], yes, pick)
  {
    var th := s.inbounds[t];
    assert LiveInbound(s.db, th);
    if th.pc.Matching? && TargetOf(th.number, th.req).Some? {
      SameFound(s.db, TargetOf(th.number, th.req).value, s.now, pick);
    }
  }

  lemma FailureCommutes(s: State, t: Id)
    requires t in s.inbounds
    ensures View(StepFailure(s, t, s.inbounds[t])) == StepFailure(View(s), t, s.inbounds[t])
  {
    var th := s.inbounds[t];
    match th.pc {
      case Attempting(sid) => BumpCommutes(s.db, sid);
      case FailCount(_) => SameCount(s.db.numbers, s.db.events, th.req.sender, s.now - ABUSE_FAIL_WINDOW, true);
      case FloodCount(_, at) => SameCount(s.db.numbers, s.db.events, th.req.sender, at - ABUSE_FLOOD_WINDOW, false);
      case _ =>
    }
  }

  lemma ResolutionCommutes(cfg: Config, s: State, t: Id, yes: bool)
    requires Live(s) && t in s.inbounds && !InAdmission(s.inbounds[t].pc) && !InFailure(s.inbounds[t].pc)
    ensures View(StepResolution(cfg.(backend := Sqlite), s, t, s.inbounds[t], yes))
         == StepResolution(cfg.(backend := Postgres), View(s), t, s.inbounds[t], yes)
  {
    var th := s.inbounds[t];
    assert LiveInbound(s.db, th);
    match th.pc {
      case Verifying(sid) => VerifyCommutes(s.db, sid, th.req.sender);
      case Auditing(outcome) =>
        AppendCommutes(s.db.numbers, s.db.events, AuditRow(th, outcome, s.now));
      case _ =>
    }
  }

  lemma StepCommutes(cfg: Config, s: State, a: Action)
    requires Live(s) && DeletesUnheld(s, a)
    ensures View(Apply(cfg.(backend := Sqlite), s, a)) == Apply(cfg.(backend := Postgres), View(s), a)
  {
    if a.StartStep? { StartCommutes(cfg, s, a.t, a.pick, a.sid, a.code); }
    else if a.InboundStep? { InboundCommutes(cfg, s, a.t, a.yes, a.pick); }
    else if a.BeginStart? || a.BeginInbound? { BeginCommutes(cfg, s, a); }
    else { PoolCommutes(cfg, s, a); }
  }

  lemma BeginCommutes(cfg: Config, s: State, a: Action)
    requires a.BeginStart? || a.BeginInbound?
    ensures View(Apply(cfg.(backend := Sqlite), s, a)) == Apply(cfg.(backend := Postgres), View(s), a)
  {}

  /** Devices, numbers, the sweep and the prune. */
  lemma PoolCommutes(cfg: Config, s: State, a: Action)
    requires Live(s) && !a.StartStep? && !a.InboundStep? && !a.BeginStart? && !a.BeginInbound?
    ensures View(Apply(cfg.(backend := Sqlite), s, a)) == Apply(cfg.(backend := Postgres), View(s), a)
  {
    match a {
      case AddNumber(num, row) => if num !in s.usedNumbers { AddNumberCommutes(s, num, row); }
      case RemoveDevice(dev) => DeleteCommutes(s.db, dev);
      case Sweep => CleanupCommutes(cfg, s, a);
      case Prune(_) => CleanupCommutes(cfg, s, a);
      case _ =>
    }
  }

  lemma CleanupCommutes(cfg: Config, s: State, a: Action)
    requires a.Sweep? || a.Prune?
    ensures View(Apply(cfg.(backend := Sqlite), s, a)) == Apply(cfg.(backend := Postgres), View(s), a)
  {
    match a {
      case Sweep => ExpireCommutes(s.db, s.now);
      case Prune(retention) => PruneCommutes(s.db.numbers, s.db.events, s.now - retention);
    }
  }

  lemma InboundCommutes(cfg: Config, s: State, t: Id, yes: bool, pick: Option<Id>)
    requires Live(s)
    ensures View(StepInbound(cfg.(backend := Sqlite), s, t, yes, pick)) == StepInbound(cfg.(backend := Postgres), View(s), t, yes, pick)
  {
    if t in s.inbounds {
      var pc := s.inbounds[t].pc;
      if InAdmission(pc) { AdmissionCommutes(s, t, yes, pick); }
      else if InFailure(pc) { FailureCommutes(s, t); }
      else { ResolutionCommutes(cfg, s, t, yes); }
    }
  }

  // ---------------------------------------------------------------- main result

  ghost predicate UnheldDeletions(cfg: Config, acts: seq<Action>) {
    forall i | 0 <= i < |acts| :: DeletesUnheld(Exec(cfg.(backend := Sqlite), acts[..i]), acts[i])
  }

  /**
   A run whose deletions take no number that a request in flight holds reaches, on Postgres,
   the view of the state it reaches on SQLite.
   */
  lemma {:induction false} BackendsStayInStep(cfg: Config, acts: seq<Action>)
    requires UnheldDeletions(cfg, acts)
    ensures Live(Exec(cfg.(backend := Sqlite), acts))
    ensures Exec(cfg.(backend := Postgres), acts) == View(Exec(cfg.(backend := Sqlite), acts))
  {
    if acts == [] {
      assert View(INIT) == INIT;
    } else {
      var before, a := acts[..|acts| - 1], acts[|acts| - 1];
      assert forall i | 0 <= i <= |before| :: before[..i] == acts[..i];
      BackendsStayInStep(cfg, before);
      var s := Exec(cfg.(backend := Sqlite), before);
      LiveStep(cfg.(backend := Sqlite), s, a);
      StepCommutes(cfg, s, a);
    }
  }

  /** What a status call answers about a session. */
  function StatusAnswer(s: State, app: Id, sid: Id): Option<(Status, Channel, Millis, Option<string>)> {
    if sid in s.db.sessions && s.db.sessions[sid].app == app then
      var x := s.db.sessions[sid];
      Some((x.status, x.channel, x.expiresAt, x.verified))
    else None
  }

  /** Every answer given, every notification, every audit row written and every status answer agree. */
  ghost predicate SameAnswers(a: State, b: State) {
    && a.starts == b.starts && a.inbounds == b.inbounds && a.notified == b.notified && a.log == b.log
    && forall app, sid :: StatusAnswer(a, app, sid) == StatusAnswer(b, app, sid)
  }

  /** Every answer to a start, an inbound or a status call is the same on both backends. */
  lemma BackendsAnswerAlike(cfg: Config, acts: seq<Action>)
    requires UnheldDeletions(cfg, acts)
    ensures SameAnswers(Exec(cfg.(backend := Sqlite), acts), Exec(cfg.(backend := Postgres), acts))
  {
    BackendsStayInStep(cfg, acts);
  }

  // ---------------------------------------------------------------- a holder tells the backends apart

  /** The start finds its number gone: Postgres fails it, SQLite inserts or retries. */
  lemma HolderStartDiffers(cfg: Config, s: State, t: Id) returns (a: Action)
    requires t in s.starts && s.starts[t].pc.Creating? && s.starts[t].pc.number !in s.db.numbers
    ensures !a.RemoveDevice?
    ensures Apply(cfg.(backend := Sqlite), s, a).starts != Apply(cfg.(backend := Postgres), View(s), a).starts
  {
    var th := s.starts[t];
    var sid := FreshNat(s.db.sessions.Keys);
    var code := if NeedsCode(th.plan.channel) then seq(th.plan.codeLen, _ => '0') else "";
    assert ValidCode(th.plan, code);
    a := StartStep(t, None, sid, code);
    var cand := Candidate(th.plan, th.pc.number, code, s.now);
    NoDeadTwin(s.db, cand);
    assert Apply(cfg.(backend := Postgres), View(s), a).starts[t].pc == StartDone(StoreFailed);
    assert Apply(cfg.(backend := Sqlite), s, a).starts[t].pc != StartDone(StoreFailed);
  }

  lemma NoDeadTwin(db: Db, cand: Session)
    requires cand.number.Some? && cand.number.value !in db.numbers
    ensures !Conflicts(ViewDb(db), cand)
  {}

  /** How far an inbound past its lookup is from its audit row, at most. */
  function StepsLeft(pc: InboundPc): nat {
    match pc
    case Lookup => 9
    case BlockCheck => 8
    case Throttle => 7
    case Matching => 6
    case Attempting(_) => 5
    case FailCount(_) => 4
    case FloodCount(_, _) => 3
    case AddBlock(_, _) => 2
    case Verifying(_) => 3
    case Notifying(_) => 2
    case Auditing(_) => 1
    case InboundDone(_) => 0
  }

  predicate OwnSteps(t: Id, acts: seq<Action>) { forall i | 0 <= i < |acts| :: acts[i].InboundStep? && acts[i].t == t }

  lemma LookupHasAnswer(db: Db, target: Target, now: Millis) returns (pick: Option<Id>)
    ensures IsFound(db, target, now, pick)
  {
    var hits := Tables.Found(db, target, now);
    if hits == {} {
      assert forall o | o in db.sessions :: o !in hits;
      return None;
    }
    Tables.NewestExists(db, hits);
    var sid :| sid in hits && Tables.IsNewest(db, hits, sid);
    return Some(sid);
  }

  /** On SQLite the request's next step brings it nearer to its row, and the row is written. */
  lemma NextStep(cfg: Config, s: State, t: Id) returns (a: Action)
    requires cfg.backend.Sqlite? && t in s.inbounds && InboundInFlight(s.inbounds[t]) && !s.inbounds[t].pc.Lookup?
    ensures a.InboundStep? && a.t == t
    ensures var s' := Apply(cfg, s, a);
      && t in s'.inbounds && !s'.inbounds[t].pc.Lookup?
      && StepsLeft(s'.inbounds[t].pc) < StepsLeft(s.inbounds[t].pc)
      && |s'.log| == |s.log| + if s'.inbounds[t].pc.InboundDone? then 1 else 0
  {
    var th := s.inbounds[t];
    var pick: Option<Id> := None;
    if th.pc.Matching? && TargetOf(th.number, th.req).Some? {
      pick := LookupHasAnswer(s.db, TargetOf(th.number, th.req).value, s.now);
    }
    a := InboundStep(t, true, pick);
    if InAdmission(th.pc) { AdmissionNears(s, t, pick); }
    else if InFailure(th.pc) { FailureNears(s, t); }
    else { ResolutionNears(cfg, s, t); }
  }

  lemma AdmissionNears(s: State, t: Id, pick: Option<Id>)
    requires t in s.inbounds && InAdmission(s.inbounds[t].pc) && !s.inbounds[t].pc.Lookup?
    requires s.inbounds[t].pc.Matching? && TargetOf(s.inbounds[t].number, s.inbounds[t].req).Some? ==>
               IsFound(s.db, TargetOf(s.inbounds[t].number, s.inbounds[t].req).value, s.now, pick)
    ensures var s' := StepAdmission(s, t, s.inbounds[t], true, pick);
      && t in s'.inbounds && !s'.inbounds[t].pc.Lookup? && !s'.inbounds[t].pc.InboundDone? && s'.log == s.log
      && StepsLeft(s'.inbounds[t].pc) < StepsLeft(s.inbounds[t].pc)
  {}

  lemma FailureNears(s: State, t: Id)
    requires t in s.inbounds && InFailure(s.inbounds[t].pc)
    ensures var s' := StepFailure(s, t, s.inbounds[t]);
      && t in s'.inbounds && !s'.inbounds[t].pc.Lookup? && !s'.inbounds[t].pc.InboundDone? && s'.log == s.log
      && StepsLeft(s'.inbounds[t].pc) < StepsLeft(s.inbounds[t].pc)
  {}

  lemma ResolutionNears(cfg: Config, s: State, t: Id)
    requires cfg.backend.Sqlite? && t in s.inbounds && InboundInFlight(s.inbounds[t])
    requires !InAdmission(s.inbounds[t].pc) && !InFailure(s.inbounds[t].pc)
    ensures var s' := StepResolution(cfg, s, t, s.inbounds[t], true);
      && t in s'.inbounds && !s'.inbounds[t].pc.Lookup?
      && StepsLeft(s'.inbounds[t].pc) < StepsLeft(s.inbounds[t].pc)
      && |s'.log| == |s.log| + if s'.inbounds[t].pc.InboundDone? then 1 else 0
  {}

  /** Left alone, the request writes its row on SQLite. */
  lemma {:induction false} RowReachesSqlite(cfg: Config, s: State, t: Id) returns (acts: seq<Action>)
    requires cfg.backend.Sqlite? && t in s.inbounds && InboundInFlight(s.inbounds[t]) && !s.inbounds[t].pc.Lookup?
    ensures OwnSteps(t, acts) && |ExecFrom(cfg, s, acts).log| == |s.log| + 1
    decreases StepsLeft(s.inbounds[t].pc)
  {
    var a := NextStep(cfg, s, t);
    var s' := Apply(cfg, s, a);
    OneStep(cfg, s, a);
    acts := [a];
    if InboundInFlight(s'.inbounds[t]) {
      var rest := RowReachesSqlite(cfg, s', t);
      ExecSplit(cfg, s, [a], rest);
      acts := [a] + rest;
    }
  }

  lemma OneStep(cfg: Config, s: State, a: Action)
    ensures ExecFrom(cfg, s, [a]) == Apply(cfg, s, a)
  {
    assert [a][..0] == [];
  }

  /** On Postgres no step of a request whose number is gone writes a row. */
  ghost predicate Dead(s: State, t: Id) {
    t in s.inbounds && !s.inbounds[t].pc.Lookup? && (s.inbounds[t].pc.InboundDone? || s.inbounds[t].number !in s.db.numbers)
  }

  lemma {:induction false} RowMissesPostgres(cfg: Config, s: State, t: Id, acts: seq<Action>)
    requires cfg.backend.Postgres? && Dead(s, t) && OwnSteps(t, acts)
    ensures Dead(ExecFrom(cfg, s, acts), t) && ExecFrom(cfg, s, acts).log == s.log
  {
    if acts != [] {
      var n := |acts| - 1;
      RowMissesPostgres(cfg, s, t, acts[..n]);
      DeadStep(cfg, ExecFrom(cfg, s, acts[..n]), t, acts[n].yes, acts[n].pick);
    }
  }

  lemma DeadStep(cfg: Config, s: State, t: Id, yes: bool, pick: Option<Id>)
    requires cfg.backend.Postgres? && Dead(s, t)
    ensures Dead(StepInbound(cfg, s, t, yes, pick), t) && StepInbound(cfg, s, t, yes, pick).log == s.log
  {
    var th := s.inbounds[t];
    InboundFrame(cfg, s, t, yes, pick);
    if InAdmission(th.pc) { DeadAdmission(s, t, yes, pick); }
    else if InFailure(th.pc) { DeadFailure(s, t); }
    else { DeadResolution(cfg, s, t, yes); }
  }

  lemma DeadAdmission(s: State, t: Id, yes: bool, pick: Option<Id>)
    requires Dead(s, t) && InAdmission(s.inbounds[t].pc)
    ensures Dead(StepAdmission(s, t, s.inbounds[t], yes, pick), t) && StepAdmission(s, t, s.inbounds[t], yes, pick).log == s.log
  {}

  lemma DeadFailure(s: State, t: Id)
    requires Dead(s, t) && InFailure(s.inbounds[t].pc)
    ensures Dead(StepFailure(s, t, s.inbounds[t]), t) && StepFailure(s, t, s.inbounds[t]).log == s.log
  {}

  lemma DeadResolution(cfg: Config, s: State, t: Id, yes: bool)
    requires cfg.backend.Postgres? && Dead(s, t) && !InAdmission(s.inbounds[t].pc) && !InFailure(s.inbounds[t].pc)
    ensures Dead(StepResolution(cfg, s, t, s.inbounds[t], yes), t) && StepResolution(cfg, s, t, s.inbounds[t], yes).log == s.log
  {}

  /** The request's row reaches the SQLite log only. */
  lemma HolderInboundDiffers(cfg: Config, s: State, t: Id) returns (more: seq<Action>)
    requires t in s.inbounds && InboundInFlight(s.inbounds[t]) && !s.inbounds[t].pc.Lookup? && s.inbounds[t].number !in s.db.numbers
    ensures NoDeletions(more)
    ensures ExecFrom(cfg.(backend := Sqlite), s, more).log != ExecFrom(cfg.(backend := Postgres), View(s), more).log
  {
    more := RowReachesSqlite(cfg.(backend := Sqlite), s, t);
    RowMissesPostgres(cfg.(backend := Postgres), View(s), t, more);
  }

  predicate NoDeletions(acts: seq<Action>) { forall i | 0 <= i < |acts| :: !acts[i].RemoveDevice? }

  /** Both backends right after the deletion: still each other's view. */
  lemma AfterDeletion(cfg: Config, acts: seq<Action>, dev: Id)
    requires UnheldDeletions(cfg, acts)
    ensures var a := Exec(cfg.(backend := Sqlite), acts + [RemoveDevice(dev)]);
      && Exec(cfg.(backend := Postgres), acts + [RemoveDevice(dev)]) == View(a)
      && a == Apply(cfg.(backend := Sqlite), Exec(cfg.(backend := Sqlite), acts), RemoveDevice(dev))
  {
    BackendsStayInStep(cfg, acts);
    assert (acts + [RemoveDevice(dev)])[..|acts|] == acts;
    PoolCommutes(cfg, Exec(cfg.(backend := Sqlite), acts), RemoveDevice(dev));
  }

  /** A held number gone makes some continuation answer differently. */
  lemma HolderDiffers(cfg: Config, s: State, dev: Id) returns (more: seq<Action>)
    requires !Unheld(s, dev)
    ensures NoDeletions(more)
    ensures var a := Apply(cfg.(backend := Sqlite), s, RemoveDevice(dev));
      !SameAnswers(ExecFrom(cfg.(backend := Sqlite), a, more), ExecFrom(cfg.(backend := Postgres), View(a), more))
  {
    var a := Apply(cfg.(backend := Sqlite), s, RemoveDevice(dev));
    assert forall n | n in Removed(s.db, dev) :: n !in a.db.numbers;
    if t :| t in s.starts && StartHolds(s.starts[t], Removed(s.db, dev)) {
      var step := HolderStartDiffers(cfg, a, t);
      OneStep(cfg.(backend := Sqlite), a, step);
      OneStep(cfg.(backend := Postgres), View(a), step);
      more := [step];
    } else {
      var t :| t in s.inbounds && InboundHolds(s.inbounds[t], Removed(s.db, dev));
      more := HolderInboundDiffers(cfg, a, t);
    }
  }

  lemma UnheldExtends(cfg: Config, acts: seq<Action>, dev: Id, more: seq<Action>)
    requires UnheldDeletions(cfg, acts) && Unheld(Exec(cfg.(backend := Sqlite), acts), dev) && NoDeletions(more)
    ensures UnheldDeletions(cfg, acts + [RemoveDevice(dev)] + more)
  {
    var all := acts + [RemoveDevice(dev)] + more;
    forall i | 0 <= i < |all|
      ensures DeletesUnheld(Exec(cfg.(backend := Sqlite), all[..i]), all[i])
    {
      if i <= |acts| { assert all[..i] == acts[..i]; }
      if i == |acts| { assert acts[..i] == acts; }
    }
  }

  /** Whatever follows the deletion, short of another one, both backends answer alike. */
  ghost predicate DeletionInvisible(cfg: Config, acts: seq<Action>, dev: Id) {
    forall more | NoDeletions(more) ::
      SameAnswers(Exec(cfg.(backend := Sqlite), acts + [RemoveDevice(dev)] + more),
                  Exec(cfg.(backend := Postgres), acts + [RemoveDevice(dev)] + more))
  }

  /**
   After any run in which the backends are in step, deleting a device is invisible exactly if no
   request in flight holds one of its numbers.
   */
  lemma DeletionInvisibleIffUnheld(cfg: Config, acts: seq<Action>, dev: Id)
    requires UnheldDeletions(cfg, acts)
    ensures DeletionInvisible(cfg, acts, dev) <==> Unheld(Exec(cfg.(backend := Sqlite), acts), dev)
  {
    if Unheld(Exec(cfg.(backend := Sqlite), acts), dev) {
      forall more | NoDeletions(more)
        ensures SameAnswers(Exec(cfg.(backend := Sqlite), acts + [RemoveDevice(dev)] + more),
                            Exec(cfg.(backend := Postgres), acts + [RemoveDevice(dev)] + more))
      {
        UnheldExtends(cfg, acts, dev, more);
        BackendsAnswerAlike(cfg, acts + [RemoveDevice(dev)] + more);
      }
    } else {
      AfterDeletion(cfg, acts, dev);
      var more := HolderDiffers(cfg, Exec(cfg.(backend := Sqlite), acts), dev);
      ExecSplit(cfg.(backend := Sqlite), INIT, acts + [RemoveDevice(dev)], more);
      ExecSplit(cfg.(backend := Postgres), INIT, acts + [RemoveDevice(dev)], more);
    }
  }

  // ---------------------------------------------------------------- a racing deletion is visible

  const ONE_LINE := Config(Sqlite, 100, 6, 90_000)
  const REQUEST := StartRequest(App(7, "", 0, 0, []), "sms", "derive", "")
  const ROW := Number(0, "+100", {Sms}, true)
  const PLAN := Plan(7, Sms, Derive, None, 6, 90_000)

  /** A start that has picked the number when its device is deleted, and then inserts. */
  const BEFORE_DELETION: seq<Action> := [AddDevice(0), Heartbeat(0), AddNumber(0, ROW), BeginStart(0, REQUEST), StartStep(0, Some(0), 0, "")]
  const RACING_DELETION: seq<Action> := BEFORE_DELETION + [RemoveDevice(0), StartStep(0, None, 10, "111111")]

  const LINE := EMPTY.(devices := map[0 := Device(true)], numbers := map[0 := ROW])

  lemma PickedBeforeDeletion(cfg: Config)
    requires cfg == ONE_LINE.(backend := cfg.backend)
    ensures var s := Exec(cfg, BEFORE_DELETION);
      && s.starts == map[0 := StartThread(PLAN, 0, Creating(0, "+100"))]
      && s.db == LINE
  {
    assert BEFORE_DELETION[..5] == BEFORE_DELETION;
    LineIsUp(cfg);
    ExecTwo(cfg, BEFORE_DELETION, 3);
    LinePicked(cfg, INIT.(db := LINE, usedNumbers := {0}));
  }

  lemma LineIsUp(cfg: Config)
    ensures Exec(cfg, BEFORE_DELETION[..3]) == INIT.(db := LINE, usedNumbers := {0})
  {
    ExecOne(cfg, BEFORE_DELETION, 0);
    assert Exec(cfg, BEFORE_DELETION[..0]) == INIT;
    ExecTwo(cfg, BEFORE_DELETION, 1);
  }

  lemma LinePicked(cfg: Config, s: State)
    requires cfg == ONE_LINE.(backend := cfg.backend) && s == INIT.(db := LINE, usedNumbers := {0})
    ensures Apply(cfg, Apply(cfg, s, BEFORE_DELETION[3]), BEFORE_DELETION[4])
         == s.(starts := map[0 := StartThread(PLAN, 0, Creating(0, "+100"))])
  {
    assert PlanOf(cfg, REQUEST, 0) == Some(PLAN);
    assert Apply(cfg, s, BEFORE_DELETION[3]) == s.(starts := map[0 := StartThread(PLAN, 0, Picking)]);
    OneLinePick(s.db);
  }

  lemma OneLinePick(db: Db)
    requires db == LINE
    ensures IsPick(db, 100, Sms, Some(0))
  {
    assert PendingOn(db, 0) == {};
  }

  /** A run that shows it: SQLite starts on the dead number, Postgres fails the start. */
  lemma RacingDeletionDiffers()
    ensures var a, b := Exec(ONE_LINE, RACING_DELETION).starts, Exec(ONE_LINE.(backend := Postgres), RACING_DELETION).starts;
      && 0 in a && a[0].pc == StartDone(Started(10, "+100", "111111"))
      && 0 in b && b[0].pc == StartDone(StoreFailed)
  {
    RacingOutcome(ONE_LINE);
    RacingOutcome(ONE_LINE.(backend := Postgres));
  }

  lemma RacingOutcome(cfg: Config)
    requires cfg == ONE_LINE.(backend := cfg.backend)
    ensures 0 in Exec(cfg, RACING_DELETION).starts
    ensures Exec(cfg, RACING_DELETION).starts[0].pc
         == StartDone(if cfg.backend.Sqlite? then Started(10, "+100", "111111") else StoreFailed)
  {
    PickedBeforeDeletion(cfg);
    assert RACING_DELETION[..5] == BEFORE_DELETION && RACING_DELETION[..7] == RACING_DELETION;
    ExecTwo(cfg, RACING_DELETION, 5);
    LineGoes(cfg, Exec(cfg, BEFORE_DELETION));
    LateInsert(cfg, Apply(cfg, Exec(cfg, BEFORE_DELETION), RemoveDevice(0)));
  }

  lemma LineGoes(cfg: Config, s: State)
    requires s.db == LINE
    ensures Apply(cfg, s, RemoveDevice(0)) == s.(db := EMPTY)
  {
    assert WithoutDevice(s.db.numbers, 0) == map[];
  }

  lemma LateInsert(cfg: Config, s: State)
    requires s.db == EMPTY && 0 in s.starts && s.starts[0] == StartThread(PLAN, 0, Creating(0, "+100"))
    ensures var s' := Apply(cfg, s, StartStep(0, None, 10, "111111"));
      && 0 in s'.starts
      && s'.starts[0].pc == StartDone(if cfg.backend.Sqlite? then Started(10, "+100", "111111") else StoreFailed)
  {
    assert ValidCode(PLAN, "111111");
  }
}
