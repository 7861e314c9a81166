/**
 The coordinator's tables and the store calls that read and change them
 (store/sqlite.go, store/postgres.go). Each call is one atomic function of the database.

 Ids stand for the random UUIDs; times are milliseconds, the precision that stored
 timestamps keep. The two backends differ in what deleting a device leaves behind and in
 whether a number reference is checked on insert.
 */
module Store {
  import opened Wrappers

  type Id = nat
  type Millis = int

  datatype Backend = Sqlite | Postgres

  datatype Channel = Sms | Call | Dtmf

  datatype Binding = Derive | Claim

  datatype Status = Pending | Verified | Expired | Failed

  datatype Device = Device(online: bool)

  datatype Number = Number(device: Id, msisdn: string, channels: set<Channel>, active: bool)

  datatype Session = Session(
    app: Id, channel: Channel, binding: Binding, status: Status, number: Option<Id>, code: Option<string>,
    claimed: Option<string>, verified: Option<string>, attempts: nat, createdAt: Millis, expiresAt: Millis)

  datatype Event = Event(number: Option<Id>, kind: string, sender: string, body: string, matched: Option<Id>, at: Millis)

  datatype Block = Block(target: string, until: Option<Millis>)

  datatype Db = Db(
    devices: map<Id, Device>, numbers: map<Id, Number>, sessions: map<Id, Session>, events: seq<Event>, blocks: seq<Block>)

  const EMPTY := Db(map[], map[], map[], [], [])

  /** Channels that occupy a SIM's single voice line. */
  predicate IsVoice(c: Channel) { c == Call || c == Dtmf }

  // ---------------------------------------------------------------- picking a number

  predicate IsPendingOn(s: Session, n: Id) { s.status == Pending && s.number == Some(n) }

  function PendingOn(db: Db, n: Id): set<Id> {
    set sid | sid in db.sessions && IsPendingOn(db.sessions[sid], n)
  }

  predicate VoiceBusy(db: Db, n: Id) {
    exists sid | sid in db.sessions :: IsPendingOn(db.sessions[sid], n) && IsVoice(db.sessions[sid].channel)
  }

  /** An active number for the channel whose device is online. */
  predicate Serves(db: Db, n: Id, c: Channel) {
    && n in db.numbers && db.numbers[n].active && c in db.numbers[n].channels
    && db.numbers[n].device in db.devices && db.devices[db.numbers[n].device].online
  }

  predicate Eligible(db: Db, maxPending: nat, n: Id, c: Channel) {
    Serves(db, n, c) && (IsVoice(c) ==> !VoiceBusy(db, n)) && |PendingOn(db, n)| < maxPending
  }

  /** A possible answer of PickNumber: a least-loaded eligible number (ties are random), or none. */
  predicate IsPick(db: Db, maxPending: nat, c: Channel, pick: Option<Id>) {
    match pick
    case Some(n) =>
      && Eligible(db, maxPending, n, c)
      && forall m | m in db.numbers && Eligible(db, maxPending, m, c) :: |PendingOn(db, n)| <= |PendingOn(db, m)|
    case None => forall m | m in db.numbers :: !Eligible(db, maxPending, m, c)
  }

  /** CountAvailableNumbers counts these, busy or not. */
  function Serving(db: Db, c: Channel): set<Id> { set n | n in db.numbers && Serves(db, n, c) }

  /** GetNumberByMSISDN: the number with this msisdn, or none. */
  predicate IsNumberLookup(db: Db, msisdn: string, pick: Option<Id>) {
    match pick
    case Some(n) => n in db.numbers && db.numbers[n].msisdn == msisdn
    case None => forall n | n in db.numbers :: db.numbers[n].msisdn != msisdn
  }

  // ---------------------------------------------------------------- sessions

  /** What the two partial unique indexes refuse: a pending twin by code, or by voice line. */
  predicate Conflicts(db: Db, s: Session) {
    s.number.Some? &&
    exists sid | sid in db.sessions ::
      var o := db.sessions[sid];
      && o.status == Pending && o.number == s.number
      && ((s.code.Some? && o.code == s.code) || (IsVoice(s.channel) && IsVoice(o.channel)))
  }

  /** Postgres refuses a session or event whose number row is gone; SQLite has no such check. */
  predicate ReferenceOk(backend: Backend, db: Db, number: Option<Id>) {
    backend.Sqlite? || number.None? || number.value in db.numbers
  }

  datatype Target = ByCode(number: Id, code: string, channel: Channel) | MissedCall(number: Id, caller: string)

  /** The rows FindPendingByCode and FindPendingMissedCall select. */
  predicate Hits(t: Target, s: Session, now: Millis) {
    && s.status == Pending && s.expiresAt > now && s.number == Some(t.number)
    && match t
       case ByCode(_, code, channel) => s.code == Some(code) && s.channel == channel
       case MissedCall(_, caller) => s.channel == Call && s.claimed == Some(caller)
  }

  /** ORDER BY created_at DESC LIMIT 1 over the hits. */
  predicate IsFound(db: Db, t: Target, now: Millis, pick: Option<Id>) {
    match pick
    case Some(sid) =>
      && sid in db.sessions && Hits(t, db.sessions[sid], now)
      && forall o | o in db.sessions && Hits(t, db.sessions[o], now) ::
           db.sessions[o].createdAt <= db.sessions[sid].createdAt
    case None => forall o | o in db.sessions :: !Hits(t, db.sessions[o], now)
  }

  function Insert(db: Db, sid: Id, s: Session): Db { db.(sessions := db.sessions[sid := s]) }

  /** The compare-and-set on status; expiry is not looked at again. */
  function Verify(db: Db, sid: Id, msisdn: string): (Db, bool) {
    if sid in db.sessions && db.sessions[sid].status == Pending then
      (Insert(db, sid, db.sessions[sid].(status := Verified, verified := Some(msisdn))), true)
    else (db, false)
  }

  function BumpAttempts(db: Db, sid: Id): Db {
    if sid in db.sessions then Insert(db, sid, db.sessions[sid].(attempts := db.sessions[sid].attempts + 1)) else db
  }

  function Lapsed(s: Session, now: Millis): Session {
    if s.status == Pending && s.expiresAt <= now then s.(status := Expired) else s
  }

  function ExpireDue(db: Db, now: Millis): Db {
    db.(sessions := map sid | sid in db.sessions :: Lapsed(db.sessions[sid], now))
  }

  // ---------------------------------------------------------------- devices

  function WithoutDevice(numbers: map<Id, Number>, dev: Id): map<Id, Number> {
    map n | n in numbers && numbers[n].device != dev :: numbers[n]
  }

  /** A number reference once rows are gone: kept dangling by SQLite, nulled by Postgres. */
  function Detached(backend: Backend, numbers: map<Id, Number>, ref: Option<Id>): Option<Id> {
    if backend.Postgres? && ref.Some? && ref.value !in numbers then None else ref
  }

  /** ON DELETE CASCADE to numbers; sessions and events outlive them. */
  function DeleteDevice(backend: Backend, db: Db, dev: Id): Db {
    if dev !in db.devices then db
    else
      var numbers := WithoutDevice(db.numbers, dev);
      db.(devices := db.devices - {dev}, numbers := numbers,
          sessions := map sid | sid in db.sessions ::
            db.sessions[sid].(number := Detached(backend, numbers, db.sessions[sid].number)),
          events := seq(|db.events|, i requires 0 <= i < |db.events| =>
            db.events[i].(number := Detached(backend, numbers, db.events[i].number))))
  }

  // ---------------------------------------------------------------- inbound events and blocks

  predicate Counts(e: Event, sender: string, since: Millis, unmatchedOnly: bool) {
    e.sender == sender && e.at > since && (unmatchedOnly ==> e.matched.None?)
  }

  /** CountInboundBySender. */
  function CountBySender(events: seq<Event>, sender: string, since: Millis, unmatchedOnly: bool): nat {
    if events == [] then 0
    else
      CountBySender(events[..|events| - 1], sender, since, unmatchedOnly)
      + if Counts(events[|events| - 1], sender, since, unmatchedOnly) then 1 else 0
  }

  /** DeleteInboundEventsBefore. */
  function PruneBefore(events: seq<Event>, cutoff: Millis): seq<Event> {
    if events == [] then []
    else
      var e := events[|events| - 1];
      PruneBefore(events[..|events| - 1], cutoff) + if e.at < cutoff then [] else [e]
  }

  predicate IsBlocked(blocks: seq<Block>, target: string, now: Millis) {
    exists i | 0 <= i < |blocks| :: blocks[i].target == target && (blocks[i].until.None? || blocks[i].until.value > now)
  }
}
