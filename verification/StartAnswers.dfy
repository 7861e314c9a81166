/**
 Why a start is answered as it is (verify/service.go Start), in terms of the request, the
 configuration and what the rows held at the request's own store calls: which starts are
 invalid, what a started session carries, and when a start gives up.
 */
module StartAnswers {
  import opened Wrappers
  import opened Store
  import opened Protocol
  import opened Soundness
  import SessionRules
  import Codes

  // ---------------------------------------------------------------- the request's words

  /** White space as Unicode numbers it. */
  predicate White(c: char) {
    var u := c as int;
    || 9 <= u <= 13 || u == 0x20 || u == 0x85 || u == 0xA0 || u == 0x1680 || 0x2000 <= u <= 0x200A
    || u == 0x2028 || u == 0x2029 || u == 0x202F || u == 0x205F || u == 0x3000
  }

  predicate AllWhite(s: string) { forall i | 0 <= i < |s| :: White(s[i]) }

  ghost predicate Surrounds(s: string, v: string, a: string, b: string) { s == a + v + b && AllWhite(a) && AllWhite(b) }

  /** v is s without the white space around it. */
  ghost predicate IsTrim(s: string, v: string) {
    (exists a: string, b: string :: Surrounds(s, v, a, b)) && (v != "" ==> !White(v[0]) && !White(v[|v| - 1]))
  }

  lemma TrimOneLeft(c: char, s: string, v: string)
    requires White(c) && IsTrim(s, v)
    ensures IsTrim([c] + s, v)
  {
    var a: string, b: string :| Surrounds(s, v, a, b);
    assert [c] + s == ([c] + a) + v + b;
    assert Surrounds([c] + s, v, [c] + a, b);
  }

  lemma TrimOneRight(s: string, c: char, v: string)
    requires White(c) && IsTrim(s, v)
    ensures IsTrim(s + [c], v)
  {
    var a: string, b: string :| Surrounds(s, v, a, b);
    assert s + [c] == a + v + (b + [c]);
    assert Surrounds(s + [c], v, a, b + [c]);
  }

  lemma Untrimmed(s: string)
    requires s != "" ==> !White(s[0]) && !White(s[|s| - 1])
    ensures IsTrim(s, s)
  {
    assert s == "" + s + "";
    assert Surrounds(s, s, "", "");
  }

  lemma {:induction false} TrimMeans(s: string)
    ensures IsTrim(s, TrimSpace(s)) && (TrimSpace(s) == "" ==> AllWhite(s))
    decreases |s|
  {
    if s == "" {
      Untrimmed(s);
    } else if IsSpace(s[0]) {
      TrimMeans(s[1..]);
      TrimOneLeft(s[0], s[1..], TrimSpace(s));
      assert s == [s[0]] + s[1..];
    } else if IsSpace(s[|s| - 1]) {
      TrimMeans(s[..|s| - 1]);
      TrimOneRight(s[..|s| - 1], s[|s| - 1], TrimSpace(s));
      assert s == s[..|s| - 1] + [s[|s| - 1]];
    } else {
      Untrimmed(s);
    }
  }

  /** Only white text has an empty trim. */
  lemma TrimOfWhite(s: string, v: string)
    requires IsTrim(s, v)
    ensures AllWhite(s) <==> v == ""
  {
    var a: string, b: string :| Surrounds(s, v, a, b);
    if v != "" { assert s[|a|] == v[0]; }
  }

  function ChannelName(c: Channel): string {
    match c
    case Sms => "sms"
    case Call => "call"
    case Dtmf => "dtmf"
  }

  function BindingName(b: Binding): string {
    match b
    case Derive => "derive"
    case Claim => "claim"
  }

  function AskedChannel(req: StartRequest): string { if req.channel == "" then "sms" else req.channel }

  function AskedBinding(req: StartRequest): string {
    if req.bindingMode != "" then req.bindingMode else if req.app.bindingMode != "" then req.app.bindingMode else "derive"
  }

  function Lifetime(cfg: Config, app: App): Millis { if app.ttlSeconds > 0 then 1000 * app.ttlSeconds else cfg.defaultTtl }

  /** A length that is not positive means six digits. */
  function Digits(cfg: Config, app: App): int {
    var asked := if app.codeLen != 0 then app.codeLen else cfg.defaultCodeLen;
    if asked <= 0 then 6 else asked
  }

  /** The requests that are refused before any number is looked for. */
  ghost predicate IsInvalid(req: StartRequest) {
    || AskedChannel(req) !in {"sms", "call", "dtmf"}
    || AskedBinding(req) !in {"derive", "claim"}
    || (AskedChannel(req) == "call" && AskedBinding(req) != "claim")
    || (req.app.channelsEnabled != [] && AskedChannel(req) !in req.app.channelsEnabled)
    || (AskedBinding(req) == "claim" && AllWhite(req.claimedMsisdn))
  }

  /** What a valid request asks for, at the time of its validation. */
  ghost predicate PlanMeans(cfg: Config, req: StartRequest, now: Millis, plan: Plan) {
    && plan.app == req.app.id
    && ChannelName(plan.channel) == AskedChannel(req) && BindingName(plan.binding) == AskedBinding(req)
    && (if plan.claimed.None? then AllWhite(req.claimedMsisdn) else plan.claimed.value != "" && IsTrim(req.claimedMsisdn, plan.claimed.value))
    && plan.codeLen == Digits(cfg, req.app)
    && plan.expiresAt == now + Lifetime(cfg, req.app)
  }

  lemma PlanOfMeans(cfg: Config, req: StartRequest, now: Millis)
    ensures PlanOf(cfg, req, now).None? <==> IsInvalid(req)
    ensures PlanOf(cfg, req, now).Some? ==> PlanMeans(cfg, req, now, PlanOf(cfg, req, now).value)
  {
    TrimMeans(req.claimedMsisdn);
    TrimOfWhite(req.claimedMsisdn, TrimSpace(req.claimedMsisdn));
  }

  // ---------------------------------------------------------------- moments of a start

  /** Step i of the run is the one in which start t begins. */
  ghost predicate Began(cfg: Config, acts: seq<Action>, t: Id, i: nat, req: StartRequest) {
    i < |acts| && acts[i] == BeginStart(t, req) && t !in At(cfg, acts, i).starts
  }

  /** In step i start t moves on. */
  ghost predicate MovesAt(cfg: Config, acts: seq<Action>, t: Id, i: nat) {
    && i < |acts| && acts[i].StartStep? && acts[i].t == t && t in At(cfg, acts, i).starts
    && t in At(cfg, acts, i + 1).starts && At(cfg, acts, i + 1).starts[t] != At(cfg, acts, i).starts[t]
  }

  predicate Voice(c: Channel) { c != Sms }

  /** A number that serves the channel: active, capable, on a device that is online. */
  predicate InService(db: Db, n: Id, c: Channel) {
    && n in db.numbers && db.numbers[n].active && c in db.numbers[n].channels
    && db.numbers[n].device in db.devices && db.devices[db.numbers[n].device].online
  }

  ghost function Servers(db: Db, c: Channel): set<Id> { set n | n in db.numbers && InService(db, n, c) }

  ghost function Waiting(db: Db, n: Id): set<Id> {
    set sid | sid in db.sessions && db.sessions[sid].number == Some(n) && db.sessions[sid].status == Pending
  }

  /** One that can take a session more: below the cap, its voice line free if it is for a call. */
  ghost predicate CanTake(cfg: Config, db: Db, n: Id, c: Channel) {
    && InService(db, n, c) && |Waiting(db, n)| < cfg.maxPending
    && (Voice(c) ==> forall sid | sid in Waiting(db, n) :: db.sessions[sid].channel == Sms)
  }

  /** A pending session of the number with the same code, or a second one on its voice line. */
  ghost predicate Collides(db: Db, n: Id, plan: Plan, code: string) {
    exists sid | sid in Waiting(db, n) ::
      || (plan.channel != Call && db.sessions[sid].code == Some(code))
      || (Voice(plan.channel) && Voice(db.sessions[sid].channel))
  }

  ghost predicate PickedAt(cfg: Config, acts: seq<Action>, t: Id, i: nat, n: Id, msisdn: string) {
    && MovesAt(cfg, acts, t, i) && At(cfg, acts, i).starts[t].pc.Picking?
    && var db, c := At(cfg, acts, i).db, At(cfg, acts, i).starts[t].plan.channel;
       && CanTake(cfg, db, n, c) && msisdn == db.numbers[n].msisdn
       && forall m | m in db.numbers && CanTake(cfg, db, m, c) :: |Waiting(db, n)| <= |Waiting(db, m)|
  }

  ghost predicate FoundNoneAt(cfg: Config, acts: seq<Action>, t: Id, i: nat) {
    && MovesAt(cfg, acts, t, i) && At(cfg, acts, i).starts[t].pc.Picking?
    && forall n | n in At(cfg, acts, i).db.numbers :: !CanTake(cfg, At(cfg, acts, i).db, n, At(cfg, acts, i).starts[t].plan.channel)
  }

  ghost predicate CollidedAt(cfg: Config, acts: seq<Action>, t: Id, i: nat) {
    && MovesAt(cfg, acts, t, i) && At(cfg, acts, i).starts[t].pc.Creating?
    && Collides(At(cfg, acts, i).db, At(cfg, acts, i).starts[t].pc.number, At(cfg, acts, i).starts[t].plan, acts[i].code)
  }

  /** The new row, field by field. */
  predicate IsRowOf(plan: Plan, n: Id, code: string, now: Millis, row: Session) {
    && row.app == plan.app && row.channel == plan.channel && row.binding == plan.binding && row.claimed == plan.claimed
    && row.status == Pending && row.verified.None? && row.attempts == 0
    && row.number == Some(n) && row.code == (if plan.channel == Call then None else Some(code))
    && row.createdAt == now && row.expiresAt == plan.expiresAt
  }

  ghost predicate InsertedAt(cfg: Config, acts: seq<Action>, t: Id, i: nat, sid: Id, n: Id, code: string) {
    && MovesAt(cfg, acts, t, i) && At(cfg, acts, i).starts[t].pc.Creating?
    && var s, plan := At(cfg, acts, i), At(cfg, acts, i).starts[t].plan;
       && acts[i].sid == sid && acts[i].code == code
       && s.starts[t].pc.number == n && sid !in s.db.sessions && !Collides(s.db, n, plan, code)
       && (cfg.backend == Postgres ==> n in s.db.numbers)
       && (if plan.channel == Call then code == "" else |code| == plan.codeLen && Codes.AllDigits(code))
       && sid in At(cfg, acts, i + 1).db.sessions && IsRowOf(plan, n, code, s.now, At(cfg, acts, i + 1).db.sessions[sid])
       && At(cfg, acts, i + 1).db.sessions == s.db.sessions[sid := At(cfg, acts, i + 1).db.sessions[sid]]
  }

  /** The number row went between pick and insert, and the database checks the reference. */
  ghost predicate LostNumberAt(cfg: Config, acts: seq<Action>, t: Id, i: nat) {
    && MovesAt(cfg, acts, t, i) && At(cfg, acts, i).starts[t].pc.Creating?
    && cfg.backend == Postgres && At(cfg, acts, i).starts[t].pc.number !in At(cfg, acts, i).db.numbers
    && !Collides(At(cfg, acts, i).db, At(cfg, acts, i).starts[t].pc.number, At(cfg, acts, i).starts[t].plan, acts[i].code)
  }

  ghost predicate CountedAt(cfg: Config, acts: seq<Action>, t: Id, i: nat, p: nat) {
    && MovesAt(cfg, acts, t, i) && At(cfg, acts, i).starts[t].pc.Counting?
    && p == |Servers(At(cfg, acts, i).db, At(cfg, acts, i).starts[t].plan.channel)|
  }

  ghost function Collisions(cfg: Config, acts: seq<Action>, t: Id): set<nat> {
    set i | 0 <= i < |acts| && CollidedAt(cfg, acts, t, i)
  }

  // ---------------------------------------------------------------- the store's words in these terms

  lemma StoreMeans(cfg: Config, db: Db, n: Id, c: Channel)
    ensures PendingOn(db, n) == Waiting(db, n)
    ensures Eligible(db, cfg.maxPending, n, c) <==> CanTake(cfg, db, n, c)
    ensures Serves(db, n, c) <==> InService(db, n, c)
  {
    assert VoiceBusy(db, n) <==> exists sid | sid in Waiting(db, n) :: db.sessions[sid].channel != Sms by {
      if VoiceBusy(db, n) {
        var sid :| sid in db.sessions && IsPendingOn(db.sessions[sid], n) && IsVoice(db.sessions[sid].channel);
        assert sid in Waiting(db, n);
      }
    }
  }

  lemma ConflictMeans(db: Db, plan: Plan, n: Id, code: string, now: Millis)
    ensures Conflicts(db, Candidate(plan, n, code, now)) <==> Collides(db, n, plan, code)
  {
    var row := Candidate(plan, n, code, now);
    if Conflicts(db, row) {
      var sid :| sid in db.sessions && db.sessions[sid].status == Pending && db.sessions[sid].number == row.number
        && ((row.code.Some? && db.sessions[sid].code == row.code) || (IsVoice(row.channel) && IsVoice(db.sessions[sid].channel)));
      assert sid in Waiting(db, n);
    }
  }

  lemma ServingMeans(db: Db, c: Channel)
    ensures Serving(db, c) == Servers(db, c)
  {}

  // ---------------------------------------------------------------- one move

  /** What a move of start t shows, and where it leads. */
  ghost predicate MoveShows(cfg: Config, acts: seq<Action>, t: Id, i: nat)
    requires MovesAt(cfg, acts, t, i)
  {
    var th, th' := At(cfg, acts, i).starts[t], At(cfg, acts, i + 1).starts[t];
    && th'.plan == th.plan
    && match th.pc
       case Picking =>
         && th'.attempt == th.attempt
         && if th'.pc.Creating? then PickedAt(cfg, acts, t, i, th'.pc.number, th'.pc.msisdn)
            else th'.pc.Counting? && FoundNoneAt(cfg, acts, t, i)
       case Creating(n, msisdn) =>
         if CollidedAt(cfg, acts, t, i) then
           th'.attempt == th.attempt + 1 && th'.pc == if th.attempt + 1 < 8 then Picking else Counting
         else
           && th'.attempt == th.attempt
           && if th'.pc == StartDone(StoreFailed) then LostNumberAt(cfg, acts, t, i)
              else
                && th'.pc == StartDone(Started(acts[i].sid, msisdn, acts[i].code))
                && InsertedAt(cfg, acts, t, i, acts[i].sid, n, acts[i].code)
       case Counting =>
         && th'.attempt == th.attempt
         && if th'.pc.StartDone? && th'.pc.outcome.Busy? then
              Voice(th.plan.channel) && th'.pc.outcome.position > 0 && CountedAt(cfg, acts, t, i, th'.pc.outcome.position)
            else
              && th'.pc == StartDone(NoCapacity)
              && (CountedAt(cfg, acts, t, i, 0) || th.plan.channel == Sms)
       case StartDone(_) => false
  }

  lemma MoveIsShown(cfg: Config, acts: seq<Action>, t: Id, i: nat)
    requires MovesAt(cfg, acts, t, i)
    ensures MoveShows(cfg, acts, t, i)
  {
    ExecOne(cfg, acts, i);
    var s, th := At(cfg, acts, i), At(cfg, acts, i).starts[t];
    match th.pc {
      case Picking => PickIsShown(cfg, acts, t, i);
      case Creating(n, _) => CreateIsShown(cfg, acts, t, i);
      case Counting => ServingMeans(s.db, th.plan.channel);
      case StartDone(_) =>
    }
  }

  lemma PickIsShown(cfg: Config, acts: seq<Action>, t: Id, i: nat)
    requires MovesAt(cfg, acts, t, i) && At(cfg, acts, i).starts[t].pc.Picking?
    requires At(cfg, acts, i + 1) == Apply(cfg, At(cfg, acts, i), acts[i])
    ensures MoveShows(cfg, acts, t, i)
  {
    var db, c := At(cfg, acts, i).db, At(cfg, acts, i).starts[t].plan.channel;
    forall n
      ensures PendingOn(db, n) == Waiting(db, n)
      ensures Eligible(db, cfg.maxPending, n, c) <==> CanTake(cfg, db, n, c)
    {
      StoreMeans(cfg, db, n, c);
    }
  }

  lemma CreateIsShown(cfg: Config, acts: seq<Action>, t: Id, i: nat)
    requires MovesAt(cfg, acts, t, i) && At(cfg, acts, i).starts[t].pc.Creating?
    requires At(cfg, acts, i + 1) == Apply(cfg, At(cfg, acts, i), acts[i])
    ensures MoveShows(cfg, acts, t, i)
  {
    var s, th := At(cfg, acts, i), At(cfg, acts, i).starts[t];
    ConflictMeans(s.db, th.plan, th.pc.number, acts[i].code, s.now);
  }

  // ---------------------------------------------------------------- over a run

  lemma Later(cfg: Config, acts: seq<Action>, a: Action, i: nat)
    requires i < |acts|
    ensures At(cfg, acts + [a], i) == At(cfg, acts, i) && At(cfg, acts + [a], i + 1) == At(cfg, acts, i + 1)
    ensures (acts + [a])[i] == acts[i]
  {
    Earlier(cfg, acts, a, i);
    Earlier(cfg, acts, a, i + 1);
  }

  lemma OneMore(cfg: Config, acts: seq<Action>, a: Action)
    ensures Exec(cfg, acts + [a]) == Apply(cfg, Exec(cfg, acts), a)
    ensures At(cfg, acts + [a], |acts|) == Exec(cfg, acts) && At(cfg, acts + [a], |acts| + 1) == Exec(cfg, acts + [a])
  {
    assert (acts + [a])[..|acts|] == acts && (acts + [a])[..|acts| + 1] == acts + [a];
  }

  /** How start t began, and what came of its validation. */
  ghost predicate WellBegun(cfg: Config, acts: seq<Action>, t: Id, th: StartThread) {
    exists i: nat, req :: BegunWith(cfg, acts, t, th, i, req)
  }

  ghost predicate BegunWith(cfg: Config, acts: seq<Action>, t: Id, th: StartThread, i: nat, req: StartRequest) {
    && Began(cfg, acts, t, i, req)
    && (th.pc == StartDone(Invalid) <==> IsInvalid(req))
    && (!IsInvalid(req) ==> PlanMeans(cfg, req, At(cfg, acts, i).now, th.plan))
  }

  ghost predicate EverPicked(cfg: Config, acts: seq<Action>, t: Id, n: Id, msisdn: string) {
    exists i: nat :: PickedAt(cfg, acts, t, i, n, msisdn)
  }

  ghost predicate EverFoundNone(cfg: Config, acts: seq<Action>, t: Id) { exists i: nat :: FoundNoneAt(cfg, acts, t, i) }

  /** The insert of the number that the start's last pick found. */
  ghost predicate InsertsPicked(cfg: Config, acts: seq<Action>, t: Id, i: nat, sid: Id, n: Id, msisdn: string, code: string) {
    && InsertedAt(cfg, acts, t, i, sid, n, code) && At(cfg, acts, i).starts[t].pc.msisdn == msisdn
    && EverPicked(cfg, acts[..i], t, n, msisdn)
  }

  ghost predicate EverInserted(cfg: Config, acts: seq<Action>, t: Id, sid: Id, msisdn: string, code: string) {
    exists i: nat, n :: InsertsPicked(cfg, acts, t, i, sid, n, msisdn, code)
  }

  ghost predicate EverLostNumber(cfg: Config, acts: seq<Action>, t: Id) { exists i: nat :: LostNumberAt(cfg, acts, t, i) }

  ghost predicate EverCounted(cfg: Config, acts: seq<Action>, t: Id, p: nat) { exists i: nat :: CountedAt(cfg, acts, t, i, p) }

  ghost predicate GaveUp(cfg: Config, acts: seq<Action>, t: Id) {
    EverFoundNone(cfg, acts, t) || |Collisions(cfg, acts, t)| == 8
  }

  /** What led start t to where it is. */
  ghost predicate Led(cfg: Config, acts: seq<Action>, t: Id, th: StartThread) {
    match th.pc
    case Picking => !EverFoundNone(cfg, acts, t)
    case Creating(n, msisdn) => !EverFoundNone(cfg, acts, t) && EverPicked(cfg, acts, t, n, msisdn)
    case Counting => GaveUp(cfg, acts, t)
    case StartDone(Invalid) => !EverFoundNone(cfg, acts, t)
    case StartDone(Started(sid, msisdn, code)) => !EverFoundNone(cfg, acts, t) && EverInserted(cfg, acts, t, sid, msisdn, code)
    case StartDone(StoreFailed) => !EverFoundNone(cfg, acts, t) && EverLostNumber(cfg, acts, t)
    case StartDone(Busy(p)) => GaveUp(cfg, acts, t) && Voice(th.plan.channel) && p > 0 && EverCounted(cfg, acts, t, p)
    case StartDone(NoCapacity) => GaveUp(cfg, acts, t) && (th.plan.channel == Sms || EverCounted(cfg, acts, t, 0))
  }

  predicate HasGivenUp(pc: StartPc) { pc.Counting? || (pc.StartDone? && (pc.outcome.Busy? || pc.outcome.NoCapacity?)) }

  ghost predicate Traced(cfg: Config, acts: seq<Action>, t: Id, th: StartThread) {
    && WellBegun(cfg, acts, t, th) && Led(cfg, acts, t, th)
    && th.attempt == |Collisions(cfg, acts, t)| && th.attempt <= 8 && (th.attempt == 8 ==> HasGivenUp(th.pc))
  }

  ghost predicate AllTraced(cfg: Config, acts: seq<Action>) {
    var s := Exec(cfg, acts);
    forall t | t in s.starts :: Traced(cfg, acts, t, s.starts[t])
  }

  // ---- what has happened stays so

  lemma CollisionsGrow(cfg: Config, acts: seq<Action>, a: Action, t: Id)
    ensures |acts| !in Collisions(cfg, acts, t)
    ensures Collisions(cfg, acts + [a], t)
         == Collisions(cfg, acts, t) + if CollidedAt(cfg, acts + [a], t, |acts|) then {|acts|} else {}
  {
    forall i: int | 0 <= i < |acts|
      ensures CollidedAt(cfg, acts + [a], t, i) <==> CollidedAt(cfg, acts, t, i)
    {
      Later(cfg, acts, a, i);
    }
  }

  lemma FoundNoneLater(cfg: Config, acts: seq<Action>, a: Action, t: Id)
    ensures EverFoundNone(cfg, acts + [a], t) <==> EverFoundNone(cfg, acts, t) || FoundNoneAt(cfg, acts + [a], t, |acts|)
  {
    forall i: nat | i < |acts|
      ensures FoundNoneAt(cfg, acts + [a], t, i) <==> FoundNoneAt(cfg, acts, t, i)
    {
      Later(cfg, acts, a, i);
    }
  }

  lemma PickedLater(cfg: Config, acts: seq<Action>, a: Action, t: Id, n: Id, msisdn: string)
    requires EverPicked(cfg, acts, t, n, msisdn)
    ensures EverPicked(cfg, acts + [a], t, n, msisdn)
  {
    var i: nat :| PickedAt(cfg, acts, t, i, n, msisdn);
    Later(cfg, acts, a, i);
    assert PickedAt(cfg, acts + [a], t, i, n, msisdn);
  }

  lemma InsertedLater(cfg: Config, acts: seq<Action>, a: Action, t: Id, sid: Id, msisdn: string, code: string)
    requires EverInserted(cfg, acts, t, sid, msisdn, code)
    ensures EverInserted(cfg, acts + [a], t, sid, msisdn, code)
  {
    var i: nat, n :| InsertsPicked(cfg, acts, t, i, sid, n, msisdn, code);
    Later(cfg, acts, a, i);
    assert (acts + [a])[..i] == acts[..i];
    assert InsertsPicked(cfg, acts + [a], t, i, sid, n, msisdn, code);
  }

  lemma LostNumberLater(cfg: Config, acts: seq<Action>, a: Action, t: Id)
    requires EverLostNumber(cfg, acts, t)
    ensures EverLostNumber(cfg, acts + [a], t)
  {
    var i: nat :| LostNumberAt(cfg, acts, t, i);
    Later(cfg, acts, a, i);
    assert LostNumberAt(cfg, acts + [a], t, i);
  }

  lemma CountedLater(cfg: Config, acts: seq<Action>, a: Action, t: Id, p: nat)
    requires EverCounted(cfg, acts, t, p)
    ensures EverCounted(cfg, acts + [a], t, p)
  {
    var i: nat :| CountedAt(cfg, acts, t, i, p);
    Later(cfg, acts, a, i);
    assert CountedAt(cfg, acts + [a], t, i, p);
  }

  lemma BegunLater(cfg: Config, acts: seq<Action>, a: Action, t: Id, th: StartThread, th': StartThread)
    requires WellBegun(cfg, acts, t, th) && th'.plan == th.plan
    requires th'.pc == StartDone(Invalid) <==> th.pc == StartDone(Invalid)
    ensures WellBegun(cfg, acts + [a], t, th')
  {
    var i: nat, req :| BegunWith(cfg, acts, t, th, i, req);
    Later(cfg, acts, a, i);
    assert BegunWith(cfg, acts + [a], t, th', i, req);
  }

  lemma LedLater(cfg: Config, acts: seq<Action>, a: Action, t: Id, th: StartThread)
    requires Led(cfg, acts, t, th) && !MovesAt(cfg, acts + [a], t, |acts|)
    ensures Led(cfg, acts + [a], t, th)
  {
    FoundNoneLater(cfg, acts, a, t);
    CollisionsGrow(cfg, acts, a, t);
    match th.pc {
      case Picking =>
      case Creating(n, msisdn) => PickedLater(cfg, acts, a, t, n, msisdn);
      case Counting =>
      case StartDone(Invalid) =>
      case StartDone(Started(sid, msisdn, code)) => InsertedLater(cfg, acts, a, t, sid, msisdn, code);
      case StartDone(StoreFailed) => LostNumberLater(cfg, acts, a, t);
      case StartDone(Busy(p)) => CountedLater(cfg, acts, a, t, p);
      case StartDone(NoCapacity) => if EverCounted(cfg, acts, t, 0) { CountedLater(cfg, acts, a, t, 0); }
    }
  }

  // ---- steps

  lemma StandsStill(cfg: Config, acts: seq<Action>, a: Action, t: Id, th: StartThread)
    requires Traced(cfg, acts, t, th) && !MovesAt(cfg, acts + [a], t, |acts|)
    ensures Traced(cfg, acts + [a], t, th)
  {
    LedLater(cfg, acts, a, t, th);
    CollisionsGrow(cfg, acts, a, t);
    BegunLater(cfg, acts, a, t, th, th);
  }

  lemma Moves(cfg: Config, acts: seq<Action>, a: Action, t: Id, th: StartThread, th': StartThread)
    requires Traced(cfg, acts, t, th) && MovesAt(cfg, acts + [a], t, |acts|)
    requires At(cfg, acts + [a], |acts|).starts[t] == th && At(cfg, acts + [a], |acts| + 1).starts[t] == th'
    ensures Traced(cfg, acts + [a], t, th')
  {
    MoveIsShown(cfg, acts + [a], t, |acts|);
    BegunLater(cfg, acts, a, t, th, th');
    AttemptsCount(cfg, acts, a, t, th, th');
    FoundNoneLater(cfg, acts, a, t);
    MoveLeads(cfg, acts, a, t, th, th');
  }

  lemma AttemptsCount(cfg: Config, acts: seq<Action>, a: Action, t: Id, th: StartThread, th': StartThread)
    requires MovesAt(cfg, acts + [a], t, |acts|) && MoveShows(cfg, acts + [a], t, |acts|)
    requires At(cfg, acts + [a], |acts|).starts[t] == th && At(cfg, acts + [a], |acts| + 1).starts[t] == th'
    requires th.attempt <= 8 && th.attempt == |Collisions(cfg, acts, t)| && (th.attempt == 8 ==> HasGivenUp(th.pc))
    ensures th'.attempt <= 8 && th'.attempt == |Collisions(cfg, acts + [a], t)| && (th'.attempt == 8 ==> HasGivenUp(th'.pc))
  {
    CollisionsGrow(cfg, acts, a, t);
    assert CollidedAt(cfg, acts + [a], t, |acts|) ==> th.pc.Creating?;
  }

  lemma MoveLeads(cfg: Config, acts: seq<Action>, a: Action, t: Id, th: StartThread, th': StartThread)
    requires MovesAt(cfg, acts + [a], t, |acts|) && MoveShows(cfg, acts + [a], t, |acts|)
    requires At(cfg, acts + [a], |acts|).starts[t] == th && At(cfg, acts + [a], |acts| + 1).starts[t] == th'
    requires Led(cfg, acts, t, th) && th.attempt <= 8 && th.attempt == |Collisions(cfg, acts, t)| && (th.attempt == 8 ==> HasGivenUp(th.pc))
    requires EverFoundNone(cfg, acts + [a], t) <==> EverFoundNone(cfg, acts, t) || FoundNoneAt(cfg, acts + [a], t, |acts|)
    requires th'.attempt == |Collisions(cfg, acts + [a], t)|
    ensures Led(cfg, acts + [a], t, th')
  {
    match th.pc {
      case Picking => if th'.pc.Creating? { assert EverPicked(cfg, acts + [a], t, th'.pc.number, th'.pc.msisdn); }
      case Creating(n, msisdn) =>
        assert (acts + [a])[..|acts|] == acts;
        if th'.pc.StartDone? && th'.pc.outcome.Started? {
          assert InsertsPicked(cfg, acts + [a], t, |acts|, a.sid, n, msisdn, a.code);
        }
      case Counting =>
      case StartDone(_) =>
    }
  }

  lemma Begins(cfg: Config, acts: seq<Action>, a: Action, t: Id)
    requires t !in Exec(cfg, acts).starts && t in Exec(cfg, acts + [a]).starts && NeverMoved(cfg, acts, t)
    ensures Traced(cfg, acts + [a], t, Exec(cfg, acts + [a]).starts[t])
  {
    OneMore(cfg, acts, a);
    var s := Exec(cfg, acts);
    OnlyBeginsNew(cfg, s, a, t);
    PlanOfMeans(cfg, a.start, s.now);
    assert BegunWith(cfg, acts + [a], t, Exec(cfg, acts + [a]).starts[t], |acts|, a.start);
    CollisionsGrow(cfg, acts, a, t);
    FoundNoneLater(cfg, acts, a, t);
    assert Collisions(cfg, acts, t) == {};
  }

  lemma OnlyBeginsNew(cfg: Config, s: State, a: Action, t: Id)
    requires t !in s.starts && t in Apply(cfg, s, a).starts
    ensures a.BeginStart? && a.t == t
    ensures var plan := PlanOf(cfg, a.start, s.now);
      Apply(cfg, s, a).starts[t] == if plan.None? then StartThread(NO_PLAN, 0, StartDone(Invalid)) else StartThread(plan.value, 0, Picking)
  {
    if a.InboundStep? { InboundFrame(cfg, s, a.t, a.yes, a.pick); }
  }

  ghost predicate NeverMoved(cfg: Config, acts: seq<Action>, t: Id) { forall i: nat :: !MovesAt(cfg, acts, t, i) }

  /** A start that is not there yet has never moved. */
  lemma {:induction false} AbsentNeverMoved(cfg: Config, acts: seq<Action>, t: Id)
    requires t !in Exec(cfg, acts).starts
    ensures NeverMoved(cfg, acts, t)
  {
    forall i: nat
      ensures !MovesAt(cfg, acts, t, i)
    {
      if MovesAt(cfg, acts, t, i) { StaysThere(cfg, acts, t, i); }
    }
  }

  lemma {:induction false} StaysThere(cfg: Config, acts: seq<Action>, t: Id, i: nat)
    requires i <= |acts| && t in At(cfg, acts, i).starts
    ensures t in Exec(cfg, acts).starts
    decreases |acts|
  {
    assert acts[..|acts|] == acts;
    if i < |acts| {
      var before, a := acts[..|acts| - 1], acts[|acts| - 1];
      assert before + [a] == acts && before[..i] == acts[..i];
      StaysThere(cfg, before, t, i);
      OneMore(cfg, before, a);
      OthersStand(cfg, Exec(cfg, before), a, t);
    }
  }

  /** Only a start's own step changes its record. */
  lemma OthersStand(cfg: Config, s: State, a: Action, t: Id)
    requires t in s.starts
    ensures t in Apply(cfg, s, a).starts
    ensures !(a.StartStep? && a.t == t) ==> Apply(cfg, s, a).starts[t] == s.starts[t]
  {
    if a.InboundStep? { InboundFrame(cfg, s, a.t, a.yes, a.pick); }
  }

  lemma TracedStep(cfg: Config, acts: seq<Action>, a: Action)
    requires AllTraced(cfg, acts)
    ensures AllTraced(cfg, acts + [a])
  {
    OneMore(cfg, acts, a);
    var s, s' := Exec(cfg, acts), Exec(cfg, acts + [a]);
    forall t | t in s'.starts
      ensures Traced(cfg, acts + [a], t, s'.starts[t])
    {
      if t !in s.starts {
        AbsentNeverMoved(cfg, acts, t);
        Begins(cfg, acts, a, t);
      } else {
        OthersStand(cfg, s, a, t);
        if MovesAt(cfg, acts + [a], t, |acts|) { Moves(cfg, acts, a, t, s.starts[t], s'.starts[t]); }
        else { StandsStill(cfg, acts, a, t, s.starts[t]); }
      }
    }
  }

  lemma {:induction false} RunsAreTraced(cfg: Config, acts: seq<Action>)
    ensures AllTraced(cfg, acts)
  {
    if acts != [] {
      var before := acts[..|acts| - 1];
      RunsAreTraced(cfg, before);
      TracedStep(cfg, before, acts[|acts| - 1]);
      assert before + [acts[|acts| - 1]] == acts;
    }
  }

  // ---------------------------------------------------------------- main results

  ghost predicate Answered(cfg: Config, acts: seq<Action>, t: Id, o: StartOutcome) {
    t in Exec(cfg, acts).starts && Exec(cfg, acts).starts[t].pc == StartDone(o)
  }

  /** A start begins once. */
  lemma BeginsOnce(cfg: Config, acts: seq<Action>, t: Id, i: nat, j: nat, req: StartRequest, req': StartRequest)
    requires Began(cfg, acts, t, i, req) && Began(cfg, acts, t, j, req') && i <= j
    ensures i == j && req == req'
  {
    if i < j {
      ExecOne(cfg, acts, i);
      assert acts[..j][..i + 1] == acts[..i + 1];
      StaysThere(cfg, acts[..j], t, i + 1);
    }
  }

  /** A start is answered invalid exactly if its request breaks one of the five rules. */
  lemma InvalidExactly(cfg: Config, acts: seq<Action>, t: Id, o: StartOutcome, i: nat, req: StartRequest)
    requires Answered(cfg, acts, t, o) && Began(cfg, acts, t, i, req)
    ensures o == Invalid <==> IsInvalid(req)
  {
    RunsAreTraced(cfg, acts);
    var th := Exec(cfg, acts).starts[t];
    assert Traced(cfg, acts, t, th);
    var j: nat, req' :| BegunWith(cfg, acts, t, th, j, req');
    if i <= j { BeginsOnce(cfg, acts, t, i, j, req, req'); } else { BeginsOnce(cfg, acts, t, j, i, req', req); }
  }

  /** The terms of a session are those that its request asked for. */
  ghost predicate CarriesTerms(cfg: Config, req: StartRequest, now: Millis, sess: Session, code: string) {
    && sess.app == req.app.id
    && ChannelName(sess.channel) == AskedChannel(req) && BindingName(sess.binding) == AskedBinding(req)
    && (if sess.claimed.None? then AllWhite(req.claimedMsisdn) else sess.claimed.value != "" && IsTrim(req.claimedMsisdn, sess.claimed.value))
    && sess.expiresAt == now + Lifetime(cfg, req.app)
    && (if sess.channel == Call then sess.code == None && code == ""
        else sess.code == Some(code) && |code| == Digits(cfg, req.app) && forall i | 0 <= i < |code| :: '0' <= code[i] <= '9')
  }

  /** Whatever happened since, a started session carries what its start asked for when it began. */
  lemma StartedAsAsked(cfg: Config, acts: seq<Action>, t: Id, sid: Id, msisdn: string, code: string, i: nat, req: StartRequest)
    requires Answered(cfg, acts, t, Started(sid, msisdn, code)) && Began(cfg, acts, t, i, req)
    ensures sid in Exec(cfg, acts).db.sessions
    ensures CarriesTerms(cfg, req, At(cfg, acts, i).now, Exec(cfg, acts).db.sessions[sid], code)
  {
    RunsAreTraced(cfg, acts);
    var th := Exec(cfg, acts).starts[t];
    assert Traced(cfg, acts, t, th);
    var b: nat, req' :| BegunWith(cfg, acts, t, th, b, req');
    if i <= b { BeginsOnce(cfg, acts, t, i, b, req, req'); } else { BeginsOnce(cfg, acts, t, b, i, req', req); }
    var j: nat, n :| InsertsPicked(cfg, acts, t, j, sid, n, msisdn, code);
    PlanSince(cfg, acts, t, j);
    TermsSinceMoment(cfg, acts, j + 1, sid);
    assert SessionRules.Evolves(At(cfg, acts, j + 1).db.sessions[sid], Exec(cfg, acts).db.sessions[sid]);
  }

  /** The plan never changes. */
  lemma {:induction false} PlanSince(cfg: Config, acts: seq<Action>, t: Id, i: nat)
    requires i <= |acts| && t in At(cfg, acts, i).starts
    ensures t in Exec(cfg, acts).starts && Exec(cfg, acts).starts[t].plan == At(cfg, acts, i).starts[t].plan
    ensures At(cfg, acts, i).starts[t].pc.StartDone? ==> Exec(cfg, acts).starts[t] == At(cfg, acts, i).starts[t]
    ensures HasGivenUp(At(cfg, acts, i).starts[t].pc) ==> HasGivenUp(Exec(cfg, acts).starts[t].pc)
    decreases |acts|
  {
    assert acts[..|acts|] == acts;
    if i < |acts| {
      var before, a := acts[..|acts| - 1], acts[|acts| - 1];
      assert before + [a] == acts && before[..i] == acts[..i];
      PlanSince(cfg, before, t, i);
      PlanStays(cfg, before, a, t);
    }
  }

  lemma PlanStays(cfg: Config, acts: seq<Action>, a: Action, t: Id)
    requires t in Exec(cfg, acts).starts
    ensures t in Exec(cfg, acts + [a]).starts
    ensures var th, th' := Exec(cfg, acts).starts[t], Exec(cfg, acts + [a]).starts[t];
      && th'.plan == th.plan && (th.pc.StartDone? ==> th' == th) && (HasGivenUp(th.pc) ==> HasGivenUp(th'.pc))
  {
    OneMore(cfg, acts, a);
    OthersStand(cfg, Exec(cfg, acts), a, t);
    if Exec(cfg, acts + [a]).starts[t] != Exec(cfg, acts).starts[t] { MoveIsShown(cfg, acts + [a], t, |acts|); }
  }

  /**
   What a start was told is what its own store calls found. It names a session exactly if it
   inserted one, free of collisions, on a number that it had picked as least loaded of those
   that could take the session; it failed exactly if that number was gone at the insert; and it
   gave up exactly if a pick found no such number or eight inserts collided.
   */
  lemma StartAnswersExactly(cfg: Config, acts: seq<Action>, t: Id, o: StartOutcome)
    requires Answered(cfg, acts, t, o)
    ensures forall sid, msisdn, code :: o == Started(sid, msisdn, code) <==> EverInserted(cfg, acts, t, sid, msisdn, code)
    ensures o == StoreFailed <==> EverLostNumber(cfg, acts, t)
    ensures o.Busy? || o == NoCapacity <==> GaveUp(cfg, acts, t)
    ensures |Collisions(cfg, acts, t)| <= 8
  {
    RunsAreTraced(cfg, acts);
    LedTo(cfg, acts, t, Exec(cfg, acts).starts[t], o);
    if EverLostNumber(cfg, acts, t) { LostNumberEnds(cfg, acts, t); }
    forall sid, msisdn, code | EverInserted(cfg, acts, t, sid, msisdn, code)
      ensures o == Started(sid, msisdn, code)
    {
      var i: nat, n :| InsertsPicked(cfg, acts, t, i, sid, n, msisdn, code);
      InsertLeads(cfg, acts, t, i, sid, n, msisdn, code);
      PlanSince(cfg, acts, t, i + 1);
    }
  }

  lemma LedTo(cfg: Config, acts: seq<Action>, t: Id, th: StartThread, o: StartOutcome)
    requires Traced(cfg, acts, t, th) && th.pc == StartDone(o)
    ensures o.Started? ==> EverInserted(cfg, acts, t, o.session, o.msisdn, o.code)
    ensures o == StoreFailed ==> EverLostNumber(cfg, acts, t)
    ensures o.Busy? || o == NoCapacity <==> GaveUp(cfg, acts, t)
    ensures o.Busy? ==> Voice(th.plan.channel) && o.position > 0 && EverCounted(cfg, acts, t, o.position)
    ensures |Collisions(cfg, acts, t)| <= 8
  {}

  lemma LostNumberEnds(cfg: Config, acts: seq<Action>, t: Id)
    requires EverLostNumber(cfg, acts, t)
    ensures Answered(cfg, acts, t, StoreFailed)
  {
    var i: nat :| LostNumberAt(cfg, acts, t, i);
    MoveIsShown(cfg, acts, t, i);
    PlanSince(cfg, acts, t, i + 1);
  }

  lemma InsertLeads(cfg: Config, acts: seq<Action>, t: Id, i: nat, sid: Id, n: Id, msisdn: string, code: string)
    requires InsertsPicked(cfg, acts, t, i, sid, n, msisdn, code)
    ensures At(cfg, acts, i + 1).starts[t].pc == StartDone(Started(sid, msisdn, code))
  {
    MoveIsShown(cfg, acts, t, i);
  }

  /** A start that gave up is told the number of SIMs that serve its voice channel, or that there is no capacity. */
  lemma BusyExactly(cfg: Config, acts: seq<Action>, t: Id, o: StartOutcome, p: nat)
    requires Answered(cfg, acts, t, o)
    ensures o == Busy(p) <==> Voice(Exec(cfg, acts).starts[t].plan.channel) && p > 0 && EverCounted(cfg, acts, t, p)
  {
    RunsAreTraced(cfg, acts);
    LedTo(cfg, acts, t, Exec(cfg, acts).starts[t], o);
    if EverCounted(cfg, acts, t, p) { CountEnds(cfg, acts, t, p); }
  }

  lemma CountEnds(cfg: Config, acts: seq<Action>, t: Id, p: nat)
    requires EverCounted(cfg, acts, t, p)
    ensures t in Exec(cfg, acts).starts
    ensures var th := Exec(cfg, acts).starts[t]; th.pc == StartDone(if Voice(th.plan.channel) && p > 0 then Busy(p) else NoCapacity)
  {
    var i: nat :| CountedAt(cfg, acts, t, i, p);
    CountLeads(cfg, acts, t, i, p);
    PlanSince(cfg, acts, t, i + 1);
  }

  lemma CountLeads(cfg: Config, acts: seq<Action>, t: Id, i: nat, p: nat)
    requires CountedAt(cfg, acts, t, i, p)
    ensures var th := At(cfg, acts, i + 1).starts[t]; th.pc == StartDone(if Voice(th.plan.channel) && p > 0 then Busy(p) else NoCapacity)
  {
    MoveIsShown(cfg, acts, t, i);
  }

  // ---------------------------------------------------------------- lengths that cannot work

  lemma StillAnswered(cfg: Config, acts: seq<Action>, more: seq<Action>, t: Id, o: StartOutcome, i: nat, req: StartRequest)
    requires Answered(cfg, acts, t, o) && Began(cfg, acts, t, i, req)
    ensures Answered(cfg, acts + more, t, o) && Began(cfg, acts + more, t, i, req)
  {
    assert (acts + more)[..|acts|] == acts && (acts + more)[..i] == acts[..i];
    PlanSince(cfg, acts + more, t, |acts|);
  }

  /**
   An app that configures codes of fewer than 4 or more than 12 digits gets sms and dtmf sessions
   that no signal can ever verify: no such code is ever read out of a body.
   */
  lemma OddLengthsNeverVerify(cfg: Config, acts: seq<Action>, more: seq<Action>, t: Id, sid: Id, msisdn: string, code: string, i: nat, req: StartRequest)
    requires Answered(cfg, acts, t, Started(sid, msisdn, code)) && Began(cfg, acts, t, i, req)
    requires AskedChannel(req) != "call" && !(4 <= Digits(cfg, req.app) <= 12)
    ensures sid in Exec(cfg, acts + more).db.sessions && Exec(cfg, acts + more).db.sessions[sid].status != Verified
  {
    StillAnswered(cfg, acts, more, t, Started(sid, msisdn, code), i, req);
    StartedAsAsked(cfg, acts + more, t, sid, msisdn, code, i, req);
    if Exec(cfg, acts + more).db.sessions[sid].status == Verified { VerifiedNumberIsTheClaim(cfg, acts + more, sid); }
  }
}
