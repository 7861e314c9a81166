/**
 The store as an object (store/sqlite.go, store/postgres.go): each method is one SQL statement,
 a query or an update of rows in place, against the store functions the protocol is built from.
 Every query has an answer that the protocol accepts, so no run waits for one.
 */
module Tables {
  import opened Wrappers
  import opened Store

  datatype Created = Inserted | Conflict | BadReference

  // ---------------------------------------------------------------- queries have answers

  predicate IsLeastLoaded(db: Db, candidates: set<Id>, n: Id) {
    n in candidates && forall m | m in candidates :: |PendingOn(db, n)| <= |PendingOn(db, m)|
  }

  /** Some number of a nonempty candidate set is least loaded. */
  lemma {:induction false} LeastLoadedExists(db: Db, candidates: set<Id>)
    requires candidates != {}
    ensures exists n | n in candidates :: IsLeastLoaded(db, candidates, n)
  {
    var x :| x in candidates;
    var rest := candidates - {x};
    assert forall m | m in candidates :: m == x || m in rest;
    if rest == {} {
      assert IsLeastLoaded(db, candidates, x);
    } else {
      LeastLoadedExists(db, rest);
      var n :| n in rest && IsLeastLoaded(db, rest, n);
      assert IsLeastLoaded(db, candidates, if |PendingOn(db, x)| < |PendingOn(db, n)| then x else n);
    }
  }

  function Eligibles(db: Db, maxPending: nat, c: Channel): set<Id> {
    set n | n in db.numbers && Eligible(db, maxPending, n, c)
  }

  predicate IsNewest(db: Db, hits: set<Id>, sid: Id)
    requires hits <= db.sessions.Keys
  {
    sid in hits && forall o | o in hits :: db.sessions[o].createdAt <= db.sessions[sid].createdAt
  }

  /** Some session of a nonempty set is the newest. */
  lemma {:induction false} NewestExists(db: Db, hits: set<Id>)
    requires hits != {} && hits <= db.sessions.Keys
    ensures exists sid | sid in hits :: IsNewest(db, hits, sid)
  {
    var x :| x in hits;
    var rest := hits - {x};
    assert forall o | o in hits :: o == x || o in rest;
    if rest == {} {
      assert IsNewest(db, hits, x);
    } else {
      NewestExists(db, rest);
      var n :| n in rest && IsNewest(db, rest, n);
      assert IsNewest(db, hits, if db.sessions[x].createdAt > db.sessions[n].createdAt then x else n);
    }
  }

  function Found(db: Db, t: Target, now: Millis): set<Id> {
    set sid | sid in db.sessions && Hits(t, db.sessions[sid], now)
  }

  function CountedRows(events: seq<Event>, sender: string, since: Millis, unmatchedOnly: bool): set<nat> {
    set i | 0 <= i < |events| && Counts(events[i], sender, since, unmatchedOnly)
  }

  /** The count is the number of rows that the query selects. */
  lemma {:induction false} CountIsCardinality(events: seq<Event>, sender: string, since: Millis, unmatchedOnly: bool)
    ensures CountBySender(events, sender, since, unmatchedOnly) == |CountedRows(events, sender, since, unmatchedOnly)|
  {
    if events != [] {
      var n := |events| - 1;
      CountIsCardinality(events[..n], sender, since, unmatchedOnly);
      var before := CountedRows(events[..n], sender, since, unmatchedOnly);
      assert CountedRows(events, sender, since, unmatchedOnly)
          == before + if Counts(events[n], sender, since, unmatchedOnly) then {n} else {};
    }
  }

  /** A prune deletes exactly the rows before its cutoff, however many equal ones there are. */
  lemma PruneKeepsExactly(events: seq<Event>, cutoff: Millis)
    ensures forall e :: multiset(PruneBefore(events, cutoff))[e] == if e.at < cutoff then 0 else multiset(events)[e]
    ensures |PruneBefore(events, cutoff)| <= |events|
  {
    forall e
      ensures multiset(PruneBefore(events, cutoff))[e] == if e.at < cutoff then 0 else multiset(events)[e]
    {
      PruneKeepsCopies(events, cutoff, e);
    }
    PruneShrinks(events, cutoff);
  }

  lemma {:induction false} PruneKeepsCopies(events: seq<Event>, cutoff: Millis, e: Event)
    ensures multiset(PruneBefore(events, cutoff))[e] == if e.at < cutoff then 0 else multiset(events)[e]
  {
    if events != [] {
      var n := |events| - 1;
      PruneKeepsCopies(events[..n], cutoff, e);
      OneMoreCopy(events[..n], events[n], e);
      OneMoreCopy(PruneBefore(events[..n], cutoff), events[n], e);
      assert events == events[..n] + [events[n]];
    }
  }

  lemma OneMoreCopy(events: seq<Event>, last: Event, e: Event)
    ensures multiset(events + [last])[e] == multiset(events)[e] + if last == e then 1 else 0
  {}

  lemma {:induction false} PruneShrinks(events: seq<Event>, cutoff: Millis)
    ensures |PruneBefore(events, cutoff)| <= |events|
  {
    if events != [] { PruneShrinks(events[..|events| - 1], cutoff); }
  }

  // ---------------------------------------------------------------- the store

  class Tables {
    const backend: Backend
    const maxPending: nat
    var db: Db

    constructor (backend: Backend, maxPending: nat)
      ensures this.backend == backend && this.maxPending == maxPending && db == EMPTY
    {
      this.backend, this.maxPending, db := backend, maxPending, EMPTY;
    }

    /** The least loaded eligible number; ties fall either way. */
    method PickNumber(c: Channel) returns (pick: Option<Id>)
      ensures IsPick(db, maxPending, c, pick)
    {
      var candidates := Eligibles(db, maxPending, c);
      if candidates == {} {
        assert forall n | n in db.numbers :: n !in candidates;
        return None;
      }
      LeastLoadedExists(db, candidates);
      var n :| n in candidates && IsLeastLoaded(db, candidates, n);
      return Some(n);
    }

    /** How many SIMs serve the channel, busy or not. */
    method CountAvailableNumbers(c: Channel) returns (n: nat)
      ensures n == |Serving(db, c)|
    {
      var serving := set n | n in db.numbers && db.numbers[n].device in db.devices && Serves(db, n, c);
      assert serving == Serving(db, c);
      n := |serving|;
    }

    method GetNumberByMsisdn(msisdn: string) returns (pick: Option<Id>)
      ensures IsNumberLookup(db, msisdn, pick)
    {
      if n :| n in db.numbers && db.numbers[n].msisdn == msisdn { return Some(n); }
      return None;
    }

    /** The newest pending, unexpired row that the query selects. */
    method FindPending(t: Target, now: Millis) returns (pick: Option<Id>)
      ensures IsFound(db, t, now, pick)
    {
      var hits := Found(db, t, now);
      if hits == {} {
        assert forall o | o in db.sessions :: o !in hits;
        return None;
      }
      NewestExists(db, hits);
      var sid :| sid in hits && IsNewest(db, hits, sid);
      return Some(sid);
    }

    /** The unique indexes refuse first, then Postgres's reference. */
    method CreateSession(sid: Id, row: Session) returns (r: Created)
      modifies this
      ensures r == if Conflicts(old(db), row) then Conflict
                   else if ReferenceOk(backend, old(db), row.number) then Inserted else BadReference
      ensures db == if r.Inserted? then Insert(old(db), sid, row) else old(db)
    {
      if Conflicts(db, row) { return Conflict; }
      if !ReferenceOk(backend, db, row.number) { return BadReference; }
      db := db.(sessions := db.sessions[sid := row]);
      return Inserted;
    }

    method VerifySession(sid: Id, msisdn: string) returns (ok: bool)
      modifies this
      ensures (db, ok) == Verify(old(db), sid, msisdn)
    {
      ok := sid in db.sessions && db.sessions[sid].status == Pending;
      if ok {
        var row := db.sessions[sid].(status := Verified, verified := Some(msisdn));
        db := db.(sessions := db.sessions[sid := row]);
      }
    }

    /** How many pending rows had run out of time; they alone change. */
    method ExpireDue(now: Millis) returns (n: nat)
      modifies this
      ensures db == Store.ExpireDue(old(db), now) && db == old(db).(sessions := db.sessions) && db.sessions.Keys == old(db).sessions.Keys
      ensures forall sid | sid in db.sessions :: var was := old(db).sessions[sid];
                db.sessions[sid] == if was.status == Pending && was.expiresAt <= now then was.(status := Expired) else was
      ensures n == |set sid | sid in old(db).sessions && old(db).sessions[sid].status == Pending && old(db).sessions[sid].expiresAt <= now|
    {
      var due := set sid | sid in db.sessions && db.sessions[sid].status == Pending && db.sessions[sid].expiresAt <= now;
      var sessions := db.sessions;
      db := db.(sessions := map sid | sid in sessions :: if sid in due then sessions[sid].(status := Expired) else sessions[sid]);
      assert db.sessions == Store.ExpireDue(old(db), now).sessions;
      n := |due|;
    }

    /** The rows before the cutoff go, every copy of them, and how many they were. */
    method DeleteInboundEventsBefore(cutoff: Millis) returns (n: nat)
      modifies this
      ensures db == old(db).(events := PruneBefore(old(db).events, cutoff))
      ensures forall e :: multiset(db.events)[e] == if e.at < cutoff then 0 else multiset(old(db).events)[e]
      ensures n == |old(db).events| - |db.events|
    {
      PruneKeepsExactly(db.events, cutoff);
      var kept := PruneBefore(db.events, cutoff);
      n := |db.events| - |kept|;
      db := db.(events := kept);
    }

    method IncrementAttempts(sid: Id)
      modifies this
      ensures db == BumpAttempts(old(db), sid)
    {
      if sid in db.sessions {
        var row := db.sessions[sid];
        db := db.(sessions := db.sessions[sid := row.(attempts := row.attempts + 1)]);
      }
    }

    /** The number must exist on Postgres; the caller only logs a refused row. */
    method CreateInboundEvent(row: Event) returns (ok: bool)
      modifies this
      ensures ok == ReferenceOk(backend, old(db), row.number)
      ensures db == if ok then old(db).(events := old(db).events + [row]) else old(db)
    {
      ok := ReferenceOk(backend, db, row.number);
      if ok { db := db.(events := db.events + [row]); }
    }

    method CountInboundBySender(sender: string, since: Millis, unmatchedOnly: bool) returns (n: nat)
      ensures n == CountBySender(db.events, sender, since, unmatchedOnly)
    {
      var rows := set i | 0 <= i < |db.events| && Counts(db.events[i], sender, since, unmatchedOnly);
      CountIsCardinality(db.events, sender, since, unmatchedOnly);
      assert rows == CountedRows(db.events, sender, since, unmatchedOnly);
      n := |rows|;
    }

    method CheckBlocked(target: string, now: Millis) returns (blocked: bool)
      ensures blocked <==> IsBlocked(db.blocks, target, now)
    {
      var rows := set i | 0 <= i < |db.blocks| && db.blocks[i].target == target && (db.blocks[i].until.None? || db.blocks[i].until.value > now);
      assert forall i | 0 <= i < |db.blocks| && db.blocks[i].target == target && (db.blocks[i].until.None? || db.blocks[i].until.value > now) :: i in rows;
      blocked := |rows| > 0;
      if blocked {
        var i :| i in rows;
        assert IsBlocked(db.blocks, target, now);
      }
    }

    method CreateBlock(target: string, until: Option<Millis>)
      modifies this
      ensures db == old(db).(blocks := old(db).blocks + [Block(target, until)])
    {
      db := db.(blocks := db.blocks + [Block(target, until)]);
    }

    /** False is ErrNotFound. SQLite's cascade stops at the numbers; Postgres also clears references. */
    method RemoveDevice(dev: Id) returns (ok: bool)
      modifies this
      ensures ok == (dev in old(db).devices) && db == DeleteDevice(backend, old(db), dev)
    {
      ok := dev in db.devices;
      if ok {
        ghost var was := db;
        var numbers := WithoutDevice(db.numbers, dev);
        db := db.(devices := db.devices - {dev}, numbers := numbers);
        if backend.Postgres? {
          var sessions, events := db.sessions, db.events;
          db := db.(
            sessions := map sid | sid in sessions :: sessions[sid].(number := Detached(backend, numbers, sessions[sid].number)),
            events := seq(|events|, i requires 0 <= i < |events| => events[i].(number := Detached(backend, numbers, events[i].number))));
        }
        assert db.sessions == DeleteDevice(backend, was, dev).sessions;
        assert db.events == DeleteDevice(backend, was, dev).events;
      }
    }
  }
}
