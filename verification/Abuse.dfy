/**
 Abuse blocking (verify/service.go maybeBlock, the event and block tables of
 store/sqlite.go) over whole runs: a bound on one sender's failing attempts, and the
 invisibility of pruning old audit rows.
 */
module Abuse {
  import opened Wrappers
  import opened Store
  import opened Protocol

  // ---------------------------------------------------------------- pruning old rows

  /** Rows older than a count's window do not matter to it. */
  lemma {:induction false} PruneIsInvisible(events: seq<Event>, cutoff: Millis, sender: string, since: Millis, unmatchedOnly: bool)
    requires cutoff <= since
    ensures CountBySender(PruneBefore(events, cutoff), sender, since, unmatchedOnly)
         == CountBySender(events, sender, since, unmatchedOnly)
  {
    if events != [] {
      var n := |events| - 1;
      PruneIsInvisible(events[..n], cutoff, sender, since, unmatchedOnly);
      var kept := PruneBefore(events[..n], cutoff);
      if events[n].at < cutoff {
        assert PruneBefore(events, cutoff) == kept + [] == kept;
      } else {
        assert PruneBefore(events, cutoff) == kept + [events[n]];
        CountAppend(kept, events[n], sender, since, unmatchedOnly);
      }
    }
  }

  lemma CountAppend(events: seq<Event>, e: Event, sender: string, since: Millis, unmatchedOnly: bool)
    ensures CountBySender(events + [e], sender, since, unmatchedOnly)
         == CountBySender(events, sender, since, unmatchedOnly) + if Counts(e, sender, since, unmatchedOnly) then 1 else 0
  {
    assert (events + [e])[..|events|] == events;
  }

  /** Counts look at senders, times and matches only. */
  lemma {:induction false} CountIgnoresNumbers(a: seq<Event>, b: seq<Event>, sender: string, since: Millis, unmatchedOnly: bool)
    requires |a| == |b| && forall i | 0 <= i < |a| :: b[i] == a[i].(number := b[i].number)
    ensures CountBySender(a, sender, since, unmatchedOnly) == CountBySender(b, sender, since, unmatchedOnly)
  {
    if a != [] { CountIgnoresNumbers(a[..|a| - 1], b[..|b| - 1], sender, since, unmatchedOnly); }
  }

  // ---------------------------------------------------------------- one sender's failing attempts

  /** The request was counted as a failed attempt in the window (since, since + 10 min]. */
  predicate FailedWithin(th: InboundThread, since: Millis) {
    th.failedAt.Some? && since < th.failedAt.value <= since + ABUSE_FAIL_WINDOW
  }

  ghost function Failed(s: State, sender: string, since: Millis): set<Id> {
    set t | t in s.inbounds && s.inbounds[t].req.sender == sender && FailedWithin(s.inbounds[t], since)
  }

  /** Every finished failed attempt after since, however late. */
  ghost function SettledAfter(s: State, sender: string, since: Millis): set<Id> {
    set t | t in s.inbounds && s.inbounds[t].req.sender == sender && s.inbounds[t].failedAt.Some?
            && s.inbounds[t].failedAt.value > since && s.inbounds[t].pc.InboundDone?
  }

  /** The sender's inbounds under way. */
  ghost function InFlight(s: State, sender: string): set<Id> {
    set t | t in s.inbounds && s.inbounds[t].req.sender == sender && InboundInFlight(s.inbounds[t])
  }

  /** Past the block check, and not yet counted as failed. */
  predicate MayFail(th: InboundThread) { th.pc.Throttle? || th.pc.Matching? || th.pc.Attempting? || th.pc.FailCount? }

  ghost function Candidates(s: State, sender: string): set<Id> {
    set t | t in s.inbounds && s.inbounds[t].req.sender == sender && MayFail(s.inbounds[t])
  }

  // ---------------------------------------------------------------- the invariant

  /** Recent failures all have their unmatched rows in the table. */
  ghost predicate RowsCoverFailures(s: State, sender: string) {
    forall since | since >= s.now - ABUSE_FAIL_WINDOW ::
      CountBySender(s.db.events, sender, since, true) >= |SettledAfter(s, sender, since)|
  }

  ghost predicate HasBlockAfter(blocks: seq<Block>, sender: string, time: Millis) {
    exists i | 0 <= i < |blocks| :: blocks[i].target == sender && blocks[i].until.Some? && blocks[i].until.value > time
  }

  predicate RecordOk(now: Millis, th: InboundThread) {
    match th.failedAt
    case None => !th.pc.FloodCount? && !th.pc.AddBlock?
    case Some(v) =>
      && v <= now
      && match th.pc
         case FloodCount(_, at) => at == v
         case AddBlock(_, at) => at == v
         case Auditing(outcome) => outcome.Unmatched?
         case InboundDone(_) => true
         case _ => false
  }

  ghost predicate RecordsOk(s: State, sender: string) {
    forall t | t in s.inbounds && s.inbounds[t].req.sender == sender :: RecordOk(s.now, s.inbounds[t])
  }

  /** The blockers are all about to place their block. */
  ghost predicate Open(s: State, sender: string, blockers: set<Id>) {
    forall t | t in blockers :: t in s.inbounds && s.inbounds[t].req.sender == sender && s.inbounds[t].pc.AddBlock?
  }

  /** A block that outlives the window stands, and only requests already past their check can still fail. */
  ghost predicate Closed(s: State, sender: string, k: nat, since: Millis, blockers: set<Id>) {
    && HasBlockAfter(s.db.blocks, sender, since + ABUSE_BLOCK_DURATION)
    && (s.now <= since + ABUSE_BLOCK_DURATION ==> |blockers| + |Candidates(s, sender)| <= k)
  }

  /**
   The window's failures are at most threshold - 2 + k that came up to and with the last one that
   saw too few rows, and at most k blockers after it, whose first block ends it.
   */
  ghost predicate WindowOk(s: State, sender: string, k: nat, since: Millis, blockers: set<Id>) {
    && blockers <= Failed(s, sender, since)
    && |Failed(s, sender, since) - blockers| <= ABUSE_FAIL_THRESHOLD - 2 + k
    && |blockers| <= k
    && (Open(s, sender, blockers) || Closed(s, sender, k, since, blockers))
  }

  ghost predicate WindowsOk(s: State, sender: string, k: nat) {
    forall since :: HasBlockers(s, sender, k, since)
  }

  ghost predicate HasBlockers(s: State, sender: string, k: nat, since: Millis) {
    exists blockers :: WindowOk(s, sender, k, since, blockers)
  }

  ghost predicate Inv(s: State, sender: string, k: nat) {
    RowsCoverFailures(s, sender) && RecordsOk(s, sender) && WindowsOk(s, sender, k)
  }

  // ---------------------------------------------------------------- steps that count no failure and place no block of the sender

  /** What every window's account depends on, besides the clock. */
  ghost predicate SameAccount(s: State, s': State, sender: string) {
    && s'.now >= s.now
    && (forall since :: Failed(s', sender, since) == Failed(s, sender, since))
    && (forall time | HasBlockAfter(s.db.blocks, sender, time) :: HasBlockAfter(s'.db.blocks, sender, time))
    && (Candidates(s', sender) <= Candidates(s, sender) || !HasBlockAfter(s.db.blocks, sender, s'.now))
    && (forall t | t in s.inbounds && s.inbounds[t].req.sender == sender && s.inbounds[t].pc.AddBlock? ::
          t in s'.inbounds && s'.inbounds[t] == s.inbounds[t])
  }

  lemma LaterBlocks(blocks: seq<Block>, sender: string, a: Millis, b: Millis)
    requires a <= b && HasBlockAfter(blocks, sender, b)
    ensures HasBlockAfter(blocks, sender, a)
  {}

  lemma WindowKept(s: State, s': State, sender: string, k: nat, since: Millis, blockers: set<Id>)
    requires WindowOk(s, sender, k, since, blockers) && SameAccount(s, s', sender)
    ensures WindowOk(s', sender, k, since, blockers)
  {
    if Closed(s, sender, k, since, blockers) && s'.now <= since + ABUSE_BLOCK_DURATION {
      LaterBlocks(s.db.blocks, sender, s'.now, since + ABUSE_BLOCK_DURATION);
      SubsetBound(Candidates(s', sender), Candidates(s, sender));
    }
  }

  lemma WindowsKept(s: State, s': State, sender: string, k: nat)
    requires WindowsOk(s, sender, k) && SameAccount(s, s', sender)
    ensures WindowsOk(s', sender, k)
  {
    forall since
      ensures HasBlockers(s', sender, k, since)
    {
      assert HasBlockers(s, sender, k, since);
      var blockers :| WindowOk(s, sender, k, since, blockers);
      WindowKept(s, s', sender, k, since, blockers);
    }
  }

  /** The sender's requests are the same and time has not gone back. */
  ghost predicate SameRequests(s: State, s': State, sender: string) {
    && s'.now >= s.now
    && (forall t | t in s.inbounds && s.inbounds[t].req.sender == sender :: t in s'.inbounds && s'.inbounds[t] == s.inbounds[t])
    && (forall t | t in s'.inbounds && s'.inbounds[t].req.sender == sender :: t in s.inbounds && s.inbounds[t].req.sender == sender)
  }

  lemma SameSets(s: State, s': State, sender: string)
    requires SameRequests(s, s', sender)
    ensures forall since :: SettledAfter(s', sender, since) == SettledAfter(s, sender, since)
    ensures forall since :: Failed(s', sender, since) == Failed(s, sender, since)
    ensures Candidates(s', sender) == Candidates(s, sender)
  {}

  lemma UnconcernedStep(s: State, s': State, sender: string, k: nat)
    requires Inv(s, sender, k) && SameRequests(s, s', sender)
    requires forall time | HasBlockAfter(s.db.blocks, sender, time) :: HasBlockAfter(s'.db.blocks, sender, time)
    requires forall since | since >= s'.now - ABUSE_FAIL_WINDOW ::
               CountBySender(s'.db.events, sender, since, true) >= CountBySender(s.db.events, sender, since, true)
    ensures Inv(s', sender, k)
  {
    SameSets(s, s', sender);
    WindowsKept(s, s', sender, k);
  }

  // ---------------------------------------------------------------- the sender's own steps

  /** Request t of the sender moves, and nothing else of the sender's does. */
  ghost predicate Moves(s: State, s': State, sender: string, t: Id) {
    && s'.now == s.now && t in s'.inbounds && s'.inbounds == s.inbounds[t := s'.inbounds[t]]
    && s'.inbounds[t].req.sender == sender
    && (t in s.inbounds ==> s.inbounds[t].req.sender == sender)
  }

  function FailedAt(s: State, t: Id): Option<Millis> { if t in s.inbounds then s.inbounds[t].failedAt else None }

  /** A record moves without failing or settling, and past the block check only if there is no block. */
  lemma OrdinaryMove(s: State, s': State, sender: string, k: nat, t: Id)
    requires Inv(s, sender, k) && Moves(s, s', sender, t) && s'.db.events == s.db.events && s'.db.blocks == s.db.blocks
    requires t in s.inbounds ==> !s.inbounds[t].pc.InboundDone? && !s.inbounds[t].pc.AddBlock?
    requires s'.inbounds[t].failedAt == FailedAt(s, t) && (s'.inbounds[t].pc.InboundDone? ==> s'.inbounds[t].failedAt.None?)
    requires MayFail(s'.inbounds[t]) ==> (t in s.inbounds && MayFail(s.inbounds[t])) || !HasBlockAfter(s.db.blocks, sender, s.now)
    requires RecordOk(s.now, s'.inbounds[t])
    ensures Inv(s', sender, k)
  {
    OrdinarySets(s, s', sender, t);
    if MayFail(s'.inbounds[t]) ==> t in s.inbounds && MayFail(s.inbounds[t]) {
      assert Candidates(s', sender) <= Candidates(s, sender);
    }
    WindowsKept(s, s', sender, k);
  }

  lemma OrdinarySets(s: State, s': State, sender: string, t: Id)
    requires Moves(s, s', sender, t) && (t in s.inbounds ==> !s.inbounds[t].pc.InboundDone?)
    requires s'.inbounds[t].failedAt == FailedAt(s, t) && (s'.inbounds[t].pc.InboundDone? ==> s'.inbounds[t].failedAt.None?)
    ensures forall since :: SettledAfter(s', sender, since) == SettledAfter(s, sender, since)
    ensures forall since :: Failed(s', sender, since) == Failed(s, sender, since)
  {}

  lemma AdmissionRecord(s: State, sender: string, t: Id, yes: bool, pick: Option<Id>)
    requires t in s.inbounds && s.inbounds[t].req.sender == sender && InAdmission(s.inbounds[t].pc) && RecordOk(s.now, s.inbounds[t])
    ensures var s' := StepAdmission(s, t, s.inbounds[t], yes, pick);
      && s'.db == s.db && Moves(s, s', sender, t)
      && s'.inbounds[t].failedAt.None? && s.inbounds[t].failedAt.None? && RecordOk(s.now, s'.inbounds[t])
      && (MayFail(s'.inbounds[t]) ==> MayFail(s.inbounds[t]) || !HasBlockAfter(s.db.blocks, sender, s.now))
  {}

  lemma AdmissionMove(s: State, sender: string, k: nat, t: Id, yes: bool, pick: Option<Id>)
    requires Inv(s, sender, k) && t in s.inbounds && s.inbounds[t].req.sender == sender && InAdmission(s.inbounds[t].pc)
    ensures Inv(StepAdmission(s, t, s.inbounds[t], yes, pick), sender, k)
  {
    AdmissionRecord(s, sender, t, yes, pick);
    OrdinaryMove(s, StepAdmission(s, t, s.inbounds[t], yes, pick), sender, k, t);
  }

  // ---------------------------------------------------------------- counting a failed attempt

  /** What the count does: the request has failed, and goes on to block or not by the rows it saw. */
  ghost predicate Counted(s: State, s': State, sender: string, t: Id) {
    && Moves(s, s', sender, t) && s'.db == s.db
    && t in s.inbounds && s.inbounds[t].pc.FailCount? && s.inbounds[t].failedAt.None?
    && s'.inbounds[t].failedAt == Some(s.now)
    && var n := CountBySender(s.db.events, sender, s.now - ABUSE_FAIL_WINDOW, true);
       if n + 1 >= ABUSE_FAIL_THRESHOLD then s'.inbounds[t].pc.AddBlock? && s'.inbounds[t].pc.at == s.now
       else s'.inbounds[t].pc.FloodCount? && s'.inbounds[t].pc.at == s.now
  }

  lemma CountedSets(s: State, s': State, sender: string, t: Id)
    requires Counted(s, s', sender, t)
    ensures forall since :: Failed(s', sender, since)
              == Failed(s, sender, since) + if since < s.now <= since + ABUSE_FAIL_WINDOW then {t} else {}
    ensures forall since :: t !in Failed(s, sender, since) && SettledAfter(s', sender, since) == SettledAfter(s, sender, since)
    ensures t in Candidates(s, sender) && Candidates(s', sender) == Candidates(s, sender) - {t}
    ensures t in InFlight(s, sender)
  {}

  /** Too few rows: everything failed so far in the window is either in the table or in flight. */
  lemma FewRows(s: State, s': State, sender: string, k: nat, t: Id, since: Millis)
    requires RowsCoverFailures(s, sender) && |InFlight(s, sender)| <= k && Counted(s, s', sender, t)
    requires since < s.now <= since + ABUSE_FAIL_WINDOW
    requires CountBySender(s.db.events, sender, s.now - ABUSE_FAIL_WINDOW, true) + 1 < ABUSE_FAIL_THRESHOLD
    ensures WindowOk(s', sender, k, since, {})
  {
    CountedSets(s, s', sender, t);
    var settled := SettledAfter(s, sender, s.now - ABUSE_FAIL_WINDOW);
    SubsetBound(Failed(s', sender, since), settled + InFlight(s, sender));
    assert Failed(s', sender, since) - {} == Failed(s', sender, since);
  }

  /** Enough rows: one blocker more, still in flight or among the last that can fail. */
  lemma OneMoreBlocker(s: State, s': State, sender: string, k: nat, t: Id, since: Millis, blockers: set<Id>)
    requires WindowOk(s, sender, k, since, blockers) && |InFlight(s, sender)| <= k && Counted(s, s', sender, t)
    requires since < s.now <= since + ABUSE_FAIL_WINDOW && s'.inbounds[t].pc.AddBlock?
    ensures WindowOk(s', sender, k, since, blockers + {t})
  {
    CountedSets(s, s', sender, t);
    assert Failed(s', sender, since) - (blockers + {t}) == Failed(s, sender, since) - blockers;
    if Open(s, sender, blockers) {
      SubsetBound(blockers + {t}, InFlight(s, sender));
    }
  }

  lemma CountedKeepsWindow(s: State, s': State, sender: string, k: nat, t: Id, since: Millis)
    requires RowsCoverFailures(s, sender) && HasBlockers(s, sender, k, since)
    requires |InFlight(s, sender)| <= k && Counted(s, s', sender, t)
    ensures HasBlockers(s', sender, k, since)
  {
    var blockers :| WindowOk(s, sender, k, since, blockers);
    if !(since < s.now <= since + ABUSE_FAIL_WINDOW) {
      WindowOutside(s, s', sender, k, t, since, blockers);
    } else if s'.inbounds[t].pc.AddBlock? {
      OneMoreBlocker(s, s', sender, k, t, since, blockers);
    } else {
      FewRows(s, s', sender, k, t, since);
    }
  }

  lemma CountedKeepsInv(s: State, s': State, sender: string, k: nat, t: Id)
    requires Inv(s, sender, k) && |InFlight(s, sender)| <= k && Counted(s, s', sender, t)
    ensures Inv(s', sender, k)
  {
    RowsStay(s, s', sender, t);
    RecordsStay(s, s', sender, t);
    forall since
      ensures HasBlockers(s', sender, k, since)
    {
      CountedKeepsWindow(s, s', sender, k, t, since);
    }
  }

  /** A move that settles nothing leaves the rows covering what is settled. */
  lemma RowsStay(s: State, s': State, sender: string, t: Id)
    requires RowsCoverFailures(s, sender) && Moves(s, s', sender, t) && s'.db.events == s.db.events
    requires t in s.inbounds && !s.inbounds[t].pc.InboundDone? && !s'.inbounds[t].pc.InboundDone?
    ensures RowsCoverFailures(s', sender)
  {
    forall since | since >= s'.now - ABUSE_FAIL_WINDOW
      ensures CountBySender(s'.db.events, sender, since, true) >= |SettledAfter(s', sender, since)|
    {
      assert SettledAfter(s', sender, since) == SettledAfter(s, sender, since);
    }
  }

  lemma RecordsStay(s: State, s': State, sender: string, t: Id)
    requires RecordsOk(s, sender) && Moves(s, s', sender, t) && RecordOk(s.now, s'.inbounds[t])
    ensures RecordsOk(s', sender)
  {}

  lemma WindowOutside(s: State, s': State, sender: string, k: nat, t: Id, since: Millis, blockers: set<Id>)
    requires WindowOk(s, sender, k, since, blockers) && Counted(s, s', sender, t)
    requires !(since < s.now <= since + ABUSE_FAIL_WINDOW)
    ensures WindowOk(s', sender, k, since, blockers)
  {
    CountedSets(s, s', sender, t);
    SubsetBound(Candidates(s', sender), Candidates(s, sender));
    assert Open(s, sender, blockers) ==> Open(s', sender, blockers);
    assert Closed(s, sender, k, since, blockers) ==> Closed(s', sender, k, since, blockers);
  }

  // ---------------------------------------------------------------- placing a block

  lemma BlockAdded(blocks: seq<Block>, sender: string, until: Millis)
    ensures var blocks' := blocks + [Block(sender, Some(until))];
      && HasBlockAfter(blocks', sender, until - 1)
      && forall time | HasBlockAfter(blocks, sender, time) :: HasBlockAfter(blocks', sender, time)
  {
    var blocks' := blocks + [Block(sender, Some(until))];
    assert blocks'[|blocks|] == Block(sender, Some(until));
    forall time | HasBlockAfter(blocks, sender, time)
      ensures HasBlockAfter(blocks', sender, time)
    {
      var i :| 0 <= i < |blocks| && blocks[i].target == sender && blocks[i].until.Some? && blocks[i].until.value > time;
      assert blocks'[i] == blocks[i];
    }
  }

  /** What placing the block does. */
  ghost predicate Placed(s: State, s': State, sender: string, t: Id) {
    && Moves(s, s', sender, t) && t in s.inbounds && s.inbounds[t].pc.AddBlock?
    && s'.inbounds[t].failedAt == s.inbounds[t].failedAt && s'.inbounds[t].pc.Auditing? && s'.inbounds[t].pc.outcome.Unmatched?
    && s'.db.events == s.db.events
    && s'.db.blocks == s.db.blocks + [Block(sender, Some(s.inbounds[t].pc.at + ABUSE_BLOCK_DURATION))]
  }

  lemma PlacedSets(s: State, s': State, sender: string, t: Id)
    requires Placed(s, s', sender, t)
    ensures forall since :: Failed(s', sender, since) == Failed(s, sender, since)
    ensures Candidates(s', sender) == Candidates(s, sender)
  {
    OrdinarySets(s, s', sender, t);
  }

  lemma PlacedKeepsWindow(s: State, s': State, sender: string, k: nat, t: Id, since: Millis, blockers: set<Id>)
    requires WindowOk(s, sender, k, since, blockers) && |InFlight(s, sender)| <= k && Placed(s, s', sender, t)
    requires s.inbounds[t].failedAt == Some(s.inbounds[t].pc.at)
    ensures WindowOk(s', sender, k, since, blockers)
  {
    PlacedSets(s, s', sender, t);
    BlockAdded(s.db.blocks, sender, s.inbounds[t].pc.at + ABUSE_BLOCK_DURATION);
    if Open(s, sender, blockers) && t in blockers {
      assert s.inbounds[t].pc.at > since;
      LaterBlocks(s'.db.blocks, sender, since + ABUSE_BLOCK_DURATION, s.inbounds[t].pc.at + ABUSE_BLOCK_DURATION - 1);
      OpenFits(s, sender, blockers);
      assert Closed(s', sender, k, since, blockers);
    } else if Open(s, sender, blockers) {
      assert Open(s', sender, blockers);
    } else {
      assert Closed(s', sender, k, since, blockers);
    }
  }

  /** Blockers about to block and candidates are all in flight, and none is both. */
  lemma OpenFits(s: State, sender: string, blockers: set<Id>)
    requires Open(s, sender, blockers)
    ensures |blockers| + |Candidates(s, sender)| <= |InFlight(s, sender)|
  {
    SubsetBound(blockers + Candidates(s, sender), InFlight(s, sender));
    assert blockers !! Candidates(s, sender);
  }

  lemma PlacedKeepsInv(s: State, s': State, sender: string, k: nat, t: Id)
    requires Inv(s, sender, k) && |InFlight(s, sender)| <= k && Placed(s, s', sender, t)
    ensures Inv(s', sender, k)
  {
    assert RecordOk(s.now, s.inbounds[t]);
    RowsStay(s, s', sender, t);
    RecordsStay(s, s', sender, t);
    forall since
      ensures HasBlockers(s', sender, k, since)
    {
      PlacedKeepsBlockers(s, s', sender, k, t, since);
    }
  }

  lemma PlacedKeepsBlockers(s: State, s': State, sender: string, k: nat, t: Id, since: Millis)
    requires HasBlockers(s, sender, k, since) && |InFlight(s, sender)| <= k && Placed(s, s', sender, t)
    requires s.inbounds[t].failedAt == Some(s.inbounds[t].pc.at)
    ensures HasBlockers(s', sender, k, since)
  {
    var blockers :| WindowOk(s, sender, k, since, blockers);
    PlacedKeepsWindow(s, s', sender, k, t, since, blockers);
  }

  lemma FailureMove(s: State, sender: string, k: nat, t: Id)
    requires Inv(s, sender, k) && |InFlight(s, sender)| <= k
    requires t in s.inbounds && s.inbounds[t].req.sender == sender && InFailure(s.inbounds[t].pc)
    ensures Inv(StepFailure(s, t, s.inbounds[t]), sender, k)
  {
    var s' := StepFailure(s, t, s.inbounds[t]);
    assert RecordOk(s.now, s.inbounds[t]);
    match s.inbounds[t].pc {
      case Attempting(_) => OrdinaryMove(s, s', sender, k, t);
      case FailCount(_) => CountedKeepsInv(s, s', sender, k, t);
      case FloodCount(_, _) => OrdinaryMove(s, s', sender, k, t);
      case AddBlock(_, _) => PlacedKeepsInv(s, s', sender, k, t);
    }
  }

  // ---------------------------------------------------------------- writing the row

  /** What settling does to the sets: the attempt joins the settled ones. */
  lemma SettlingSets(s: State, s': State, sender: string, t: Id)
    requires Moves(s, s', sender, t) && t in s.inbounds && s'.inbounds[t].failedAt == s.inbounds[t].failedAt
    ensures forall since :: Failed(s', sender, since) == Failed(s, sender, since)
    ensures forall since :: |SettledAfter(s', sender, since)| <= |SettledAfter(s, sender, since)| +
              (if s.inbounds[t].failedAt.Some? && s.inbounds[t].failedAt.value > since then 1 else 0)
  {
    var th := s.inbounds[t];
    forall since
      ensures |SettledAfter(s', sender, since)| <= |SettledAfter(s, sender, since)| +
                (if th.failedAt.Some? && th.failedAt.value > since then 1 else 0)
    {
      var joined := if th.failedAt.Some? && th.failedAt.value > since then {t} else {};
      SubsetBound(SettledAfter(s', sender, since), SettledAfter(s, sender, since) + joined);
    }
  }

  /** The step writes the audit row of a failed attempt of the sender, and the store refuses it. */
  ghost predicate FailureUnrecorded(cfg: Config, s: State, a: Action, sender: string) {
    && a.InboundStep? && a.t in s.inbounds && s.inbounds[a.t].req.sender == sender
    && s.inbounds[a.t].pc.Auditing? && s.inbounds[a.t].failedAt.Some?
    && !ReferenceOk(cfg.backend, s.db, Some(s.inbounds[a.t].number))
  }

  /** Writing the audit row settles the attempt: one more row for one more settled failure. */
  lemma AuditMove(cfg: Config, s: State, sender: string, k: nat, t: Id, yes: bool)
    requires Inv(s, sender, k) && !FailureUnrecorded(cfg, s, InboundStep(t, yes, None), sender)
    requires t in s.inbounds && s.inbounds[t].req.sender == sender && s.inbounds[t].pc.Auditing?
    ensures Inv(StepResolution(cfg, s, t, s.inbounds[t], yes), sender, k)
  {
    var th, s' := s.inbounds[t], StepResolution(cfg, s, t, s.inbounds[t], yes);
    var row := AuditRow(th, th.pc.outcome, s.now);
    assert RecordOk(s.now, th);
    if ReferenceOk(cfg.backend, s.db, row.number) {
      Settle(s, s', sender, k, t, row);
    } else {
      OrdinaryMove(s, s', sender, k, t);
    }
  }

  lemma Settle(s: State, s': State, sender: string, k: nat, t: Id, row: Event)
    requires Inv(s, sender, k) && Moves(s, s', sender, t) && t in s.inbounds && s.inbounds[t].pc.Auditing?
    requires s'.inbounds[t] == s.inbounds[t].(pc := s'.inbounds[t].pc) && s'.inbounds[t].pc.InboundDone?
    requires s'.db.events == s.db.events + [row] && s'.db.blocks == s.db.blocks
    requires row.sender == sender && row.at == s.now && (s.inbounds[t].failedAt.Some? ==> row.matched.None?)
    ensures Inv(s', sender, k)
  {
    assert RecordOk(s.now, s.inbounds[t]);
    SettlingSets(s, s', sender, t);
    forall since | since >= s'.now - ABUSE_FAIL_WINDOW
      ensures CountBySender(s'.db.events, sender, since, true) >= |SettledAfter(s', sender, since)|
    {
      CountAppend(s.db.events, row, sender, since, true);
    }
    assert Candidates(s', sender) == Candidates(s, sender);
    WindowsKept(s, s', sender, k);
  }

  lemma ResolutionMove(cfg: Config, s: State, sender: string, k: nat, t: Id, yes: bool)
    requires Inv(s, sender, k) && !FailureUnrecorded(cfg, s, InboundStep(t, yes, None), sender)
    requires t in s.inbounds && s.inbounds[t].req.sender == sender
    requires !InAdmission(s.inbounds[t].pc) && !InFailure(s.inbounds[t].pc)
    ensures Inv(StepResolution(cfg, s, t, s.inbounds[t], yes), sender, k)
  {
    var s' := StepResolution(cfg, s, t, s.inbounds[t], yes);
    assert RecordOk(s.now, s.inbounds[t]);
    match s.inbounds[t].pc {
      case Verifying(_) => OrdinaryMove(s, s', sender, k, t);
      case Notifying(_) => OrdinaryMove(s, s', sender, k, t);
      case Auditing(_) => AuditMove(cfg, s, sender, k, t, yes);
      case InboundDone(_) =>
    }
  }

  // ---------------------------------------------------------------- every step

  lemma OthersMove(cfg: Config, s: State, sender: string, k: nat, t: Id, yes: bool, pick: Option<Id>)
    requires Inv(s, sender, k) && t in s.inbounds && s.inbounds[t].req.sender != sender
    ensures Inv(StepInbound(cfg, s, t, yes, pick), sender, k)
  {
    var th, s' := s.inbounds[t], StepInbound(cfg, s, t, yes, pick);
    InboundFrame(cfg, s, t, yes, pick);
    OthersEffect(cfg, s, t, yes, pick);
    forall since
      ensures CountBySender(s'.db.events, sender, since, true) == CountBySender(s.db.events, sender, since, true)
    {
      if s'.db.events != s.db.events {
        CountAppend(s.db.events, s'.db.events[|s.db.events|], sender, since, true);
      }
    }
    forall time | HasBlockAfter(s.db.blocks, sender, time)
      ensures HasBlockAfter(s'.db.blocks, sender, time)
    {
      var i :| 0 <= i < |s.db.blocks| && s.db.blocks[i].target == sender && s.db.blocks[i].until.Some? && s.db.blocks[i].until.value > time;
      assert s'.db.blocks[i] == s.db.blocks[i];
    }
    UnconcernedStep(s, s', sender, k);
  }

  /** Another sender's step appends at most its own row, and blocks only grow. */
  lemma OthersEffect(cfg: Config, s: State, t: Id, yes: bool, pick: Option<Id>)
    requires t in s.inbounds
    ensures var s' := StepInbound(cfg, s, t, yes, pick);
      var x := s.inbounds[t].req.sender;
      && (s'.db.events == s.db.events
          || (|s'.db.events| == |s.db.events| + 1 && s'.db.events == s.db.events + [s'.db.events[|s.db.events|]]
              && s'.db.events[|s.db.events|].sender == x))
      && s.db.blocks <= s'.db.blocks
  {
    var th := s.inbounds[t];
    if InAdmission(th.pc) {
      assert StepAdmission(s, t, th, yes, pick).db == s.db;
    } else if InFailure(th.pc) {
      assert StepFailure(s, t, th).db.events == s.db.events;
    } else {
      assert StepResolution(cfg, s, t, th, yes).db.blocks == s.db.blocks;
    }
  }

  lemma InboundMove(cfg: Config, s: State, sender: string, k: nat, t: Id, yes: bool, pick: Option<Id>)
    requires Inv(s, sender, k) && |InFlight(s, sender)| <= k && t in s.inbounds
    requires !FailureUnrecorded(cfg, s, InboundStep(t, yes, pick), sender)
    ensures Inv(StepInbound(cfg, s, t, yes, pick), sender, k)
  {
    var pc := s.inbounds[t].pc;
    if s.inbounds[t].req.sender != sender { OthersMove(cfg, s, sender, k, t, yes, pick); }
    else if InAdmission(pc) { AdmissionMove(s, sender, k, t, yes, pick); }
    else if InFailure(pc) { FailureMove(s, sender, k, t); }
    else { ResolutionMove(cfg, s, sender, k, t, yes); }
  }

  lemma BeginMove(s: State, s': State, sender: string, k: nat, t: Id)
    requires Inv(s, sender, k) && t !in s.inbounds && t in s'.inbounds && s' == s.(inbounds := s.inbounds[t := s'.inbounds[t]])
    requires s'.inbounds[t].failedAt.None? && (s'.inbounds[t].pc.Lookup? || s'.inbounds[t].pc.InboundDone?)
    ensures Inv(s', sender, k)
  {
    if s'.inbounds[t].req.sender == sender {
      OrdinaryMove(s, s', sender, k, t);
    } else {
      UnconcernedStep(s, s', sender, k);
    }
  }

  /** Prunes keep the whole window, and the sender's failed attempts get their audit rows. */
  ghost predicate Permitted(cfg: Config, s: State, a: Action, sender: string) {
    (a.Prune? ==> a.retention >= ABUSE_FAIL_WINDOW) && !FailureUnrecorded(cfg, s, a, sender)
  }

  lemma EventsKept(cfg: Config, s: State, a: Action, sender: string, since: Millis)
    requires Permitted(cfg, s, a, sender) && !a.InboundStep? && since >= s.now - ABUSE_FAIL_WINDOW
    ensures CountBySender(Apply(cfg, s, a).db.events, sender, since, true) == CountBySender(s.db.events, sender, since, true)
  {
    if a.Prune? {
      PruneIsInvisible(s.db.events, s.now - a.retention, sender, since, true);
    } else if a.RemoveDevice? {
      CountIgnoresNumbers(s.db.events, Apply(cfg, s, a).db.events, sender, since, true);
    }
  }

  lemma InvStep(cfg: Config, s: State, a: Action, sender: string, k: nat)
    requires Permitted(cfg, s, a, sender) && Inv(s, sender, k) && |InFlight(s, sender)| <= k
    ensures Inv(Apply(cfg, s, a), sender, k)
  {
    var s' := Apply(cfg, s, a);
    if a.InboundStep? {
      if a.t in s.inbounds { InboundMove(cfg, s, sender, k, a.t, a.yes, a.pick); }
    } else if a.BeginInbound? {
      if a.t !in s.inbounds { BeginMove(s, s', sender, k, a.t); }
    } else {
      forall since | since >= s'.now - ABUSE_FAIL_WINDOW
        ensures CountBySender(s'.db.events, sender, since, true) >= CountBySender(s.db.events, sender, since, true)
      {
        EventsKept(cfg, s, a, sender, since);
      }
      NoInboundMoves(cfg, s, a);
      UnconcernedStep(s, s', sender, k);
    }
  }

  lemma NoInboundMoves(cfg: Config, s: State, a: Action)
    requires !a.InboundStep? && !a.BeginInbound?
    ensures var s' := Apply(cfg, s, a); s'.inbounds == s.inbounds && s'.db.blocks == s.db.blocks && s'.now >= s.now
  {}

  // ---------------------------------------------------------------- main result

  /** At every moment of the run at most k of the sender's inbounds are under way. */
  ghost predicate OverlapWithin(cfg: Config, acts: seq<Action>, sender: string, k: nat) {
    forall i | 0 <= i <= |acts| :: |InFlight(Exec(cfg, acts[..i]), sender)| <= k
  }

  ghost predicate AllPermitted(cfg: Config, acts: seq<Action>, sender: string) {
    forall i | 0 <= i < |acts| :: Permitted(cfg, Exec(cfg, acts[..i]), acts[i], sender)
  }

  lemma InitiallyOk(sender: string, k: nat)
    ensures Inv(INIT, sender, k)
  {
    forall since
      ensures HasBlockers(INIT, sender, k, since)
    {
      assert Failed(INIT, sender, since) == {};
      assert WindowOk(INIT, sender, k, since, {});
    }
    assert forall since :: SettledAfter(INIT, sender, since) == {};
  }

  lemma {:induction false} RunKeepsInv(cfg: Config, acts: seq<Action>, sender: string, k: nat)
    requires AllPermitted(cfg, acts, sender) && OverlapWithin(cfg, acts, sender, k)
    ensures Inv(Exec(cfg, acts), sender, k)
  {
    if acts == [] {
      InitiallyOk(sender, k);
    } else {
      var before := acts[..|acts| - 1];
      assert forall i | 0 <= i <= |before| :: before[..i] == acts[..i];
      RunKeepsInv(cfg, before, sender, k);
      InvStep(cfg, Exec(cfg, before), acts[|acts| - 1], sender, k);
    }
  }

  /** The sender's requests counted as failed attempts in the ten minutes beginning at from. */
  ghost function FailuresFrom(s: State, sender: string, from: Millis): set<Id> {
    set t | t in s.inbounds && s.inbounds[t].req.sender == sender && s.inbounds[t].failedAt.Some?
            && from <= s.inbounds[t].failedAt.value < from + 600_000
  }

  /**
   Brute-force bound: with at most k of a sender's inbounds under way at a time, any window of
   ten minutes holds at most 3 + 2k of its attempts that reached matching and failed, whatever
   other senders, sweeps, starts and prunes of older rows run in between. On either backend: the
   only thing asked of the store is that it takes the rows of these attempts, which SQLite
   always does.
   */
  lemma FailuresBoundedByOverlap(cfg: Config, acts: seq<Action>, sender: string, k: nat, from: Millis)
    requires AllPermitted(cfg, acts, sender) && OverlapWithin(cfg, acts, sender, k)
    ensures |FailuresFrom(Exec(cfg, acts), sender, from)| <= 3 + 2 * k
  {
    RunKeepsInv(cfg, acts, sender, k);
    FailuresIn(Exec(cfg, acts), sender, k, from);
  }

  lemma FailuresIn(s: State, sender: string, k: nat, from: Millis)
    requires Inv(s, sender, k)
    ensures |FailuresFrom(s, sender, from)| <= 3 + 2 * k
  {
    assert HasBlockers(s, sender, k, from - 1);
    var blockers :| WindowOk(s, sender, k, from - 1, blockers);
    var failed := Failed(s, sender, from - 1);
    SubsetBound(FailuresFrom(s, sender, from), failed);
    assert failed == (failed - blockers) + blockers;
  }

  /** A sender whose inbounds do not overlap fails at most five times in ten minutes. */
  lemma AtMostFiveFailures(cfg: Config, acts: seq<Action>, sender: string, from: Millis)
    requires AllPermitted(cfg, acts, sender) && OverlapWithin(cfg, acts, sender, 1)
    ensures |FailuresFrom(Exec(cfg, acts), sender, from)| <= 5
  {
    FailuresBoundedByOverlap(cfg, acts, sender, 1, from);
  }

  // ---------------------------------------------------------------- pruning never changes a decision

  /** The same run with each prune left out. */
  function Unpruned(acts: seq<Action>): (r: seq<Action>)
    ensures |r| == |acts|
  {
    seq(|acts|, i requires 0 <= i < |acts| => if acts[i].Prune? then Tick(0) else acts[i])
  }

  /** Equal but for audit rows too old for any count from now - retention on. */
  ghost predicate SameButOldRows(s: State, full: State, retention: nat) {
    && s == full.(db := full.db.(events := s.db.events))
    && forall sender, since, unmatchedOnly | since >= s.now - retention ::
         CountBySender(s.db.events, sender, since, unmatchedOnly) == CountBySender(full.db.events, sender, since, unmatchedOnly)
  }

  /** Prunes keep at least the retention, and a flood count's clock reading is not that old yet. */
  ghost predicate Prompt(s: State, a: Action, retention: nat) {
    && (a.Prune? ==> a.retention >= retention)
    && (a.InboundStep? && a.t in s.inbounds && s.inbounds[a.t].pc.FloodCount? ==>
          s.inbounds[a.t].pc.at - ABUSE_FLOOD_WINDOW >= s.now - retention)
  }

  /** Both runs count alike for a recent enough window. */
  lemma SameCounts(s: State, full: State, retention: nat, sender: string, since: Millis, unmatchedOnly: bool)
    requires SameButOldRows(s, full, retention) && since >= s.now - retention
    ensures CountBySender(s.db.events, sender, since, unmatchedOnly) == CountBySender(full.db.events, sender, since, unmatchedOnly)
  {}

  /** Steps that see the same counts and leave the rows alone keep the runs together. */
  lemma SameButRows(s: State, full: State, s': State, full': State, retention: nat)
    requires SameButOldRows(s, full, retention)
    requires s'.db.events == s.db.events && full'.db.events == full.db.events && s'.now == s.now
    requires s' == full'.(db := full'.db.(events := s.db.events))
    ensures SameButOldRows(s', full', retention)
  {}

  lemma PrunedFailure(s: State, full: State, t: Id, retention: nat)
    requires SameButOldRows(s, full, retention) && retention >= ABUSE_FAIL_WINDOW
    requires t in s.inbounds && Prompt(s, InboundStep(t, true, None), retention)
    ensures SameButOldRows(StepFailure(s, t, s.inbounds[t]), StepFailure(full, t, s.inbounds[t]), retention)
  {
    var th := s.inbounds[t];
    match th.pc {
      case FailCount(_) => SameCounts(s, full, retention, th.req.sender, s.now - ABUSE_FAIL_WINDOW, true);
      case FloodCount(_, at) => SameCounts(s, full, retention, th.req.sender, at - ABUSE_FLOOD_WINDOW, false);
      case _ =>
    }
    SameButRows(s, full, StepFailure(s, t, th), StepFailure(full, t, th), retention);
  }

  lemma PrunedAdmission(s: State, full: State, t: Id, yes: bool, pick: Option<Id>, retention: nat)
    requires SameButOldRows(s, full, retention) && t in s.inbounds
    ensures SameButOldRows(StepAdmission(s, t, s.inbounds[t], yes, pick), StepAdmission(full, t, s.inbounds[t], yes, pick), retention)
  {
    var th := s.inbounds[t];
    SameAdmission(s, full, t, th, yes, pick);
    SameButRows(s, full, StepAdmission(s, t, th, yes, pick), StepAdmission(full, t, th, yes, pick), retention);
  }

  /** Admission looks at numbers, blocks and sessions, not at rows. */
  lemma SameAdmission(s: State, full: State, t: Id, th: InboundThread, yes: bool, pick: Option<Id>)
    requires s == full.(db := full.db.(events := s.db.events))
    ensures var s', full' := StepAdmission(s, t, th, yes, pick), StepAdmission(full, t, th, yes, pick);
      s' == full'.(db := full'.db.(events := s.db.events)) && s'.db == s.db && full'.db == full.db && s'.now == s.now
  {
    if th.pc.Matching? && TargetOf(th.number, th.req).Some? {
      assert IsFound(s.db, TargetOf(th.number, th.req).value, s.now, pick) == IsFound(full.db, TargetOf(th.number, th.req).value, s.now, pick);
    }
  }

  lemma PrunedResolution(cfg: Config, s: State, full: State, t: Id, yes: bool, retention: nat)
    requires SameButOldRows(s, full, retention) && t in s.inbounds
    ensures SameButOldRows(StepResolution(cfg, s, t, s.inbounds[t], yes), StepResolution(cfg, full, t, s.inbounds[t], yes), retention)
  {
    if s.inbounds[t].pc.Auditing? { PrunedAudit(cfg, s, full, t, yes, retention); }
  }

  /** The same row goes to both runs. */
  lemma PrunedAudit(cfg: Config, s: State, full: State, t: Id, yes: bool, retention: nat)
    requires SameButOldRows(s, full, retention) && t in s.inbounds && s.inbounds[t].pc.Auditing?
    ensures SameButOldRows(StepResolution(cfg, s, t, s.inbounds[t], yes), StepResolution(cfg, full, t, s.inbounds[t], yes), retention)
  {
    var th := s.inbounds[t];
    var row := AuditRow(th, th.pc.outcome, s.now);
    forall sender, since, unmatchedOnly
      ensures CountBySender(s.db.events + [row], sender, since, unmatchedOnly)
           == CountBySender(s.db.events, sender, since, unmatchedOnly) + if Counts(row, sender, since, unmatchedOnly) then 1 else 0
      ensures CountBySender(full.db.events + [row], sender, since, unmatchedOnly)
           == CountBySender(full.db.events, sender, since, unmatchedOnly) + if Counts(row, sender, since, unmatchedOnly) then 1 else 0
    {
      CountAppend(s.db.events, row, sender, since, unmatchedOnly);
      CountAppend(full.db.events, row, sender, since, unmatchedOnly);
    }
  }

  lemma PrunedDelete(cfg: Config, s: State, full: State, dev: Id, retention: nat)
    requires SameButOldRows(s, full, retention)
    ensures SameButOldRows(Apply(cfg, s, RemoveDevice(dev)), Apply(cfg, full, RemoveDevice(dev)), retention)
  {
    var s', full' := Apply(cfg, s, RemoveDevice(dev)), Apply(cfg, full, RemoveDevice(dev));
    forall sender, since, unmatchedOnly
      ensures CountBySender(s'.db.events, sender, since, unmatchedOnly) == CountBySender(s.db.events, sender, since, unmatchedOnly)
      ensures CountBySender(full'.db.events, sender, since, unmatchedOnly) == CountBySender(full.db.events, sender, since, unmatchedOnly)
    {
      CountIgnoresNumbers(s.db.events, s'.db.events, sender, since, unmatchedOnly);
      CountIgnoresNumbers(full.db.events, full'.db.events, sender, since, unmatchedOnly);
    }
  }

  /** No start looks at audit rows. */
  lemma PrunedStart(cfg: Config, s: State, full: State, t: Id, pick: Option<Id>, sid: Id, code: string, retention: nat)
    requires SameButOldRows(s, full, retention)
    ensures SameButOldRows(StepStart(cfg, s, t, pick, sid, code), StepStart(cfg, full, t, pick, sid, code), retention)
  {
    SameStart(cfg, s, full, t, pick, sid, code);
    SameButRows(s, full, StepStart(cfg, s, t, pick, sid, code), StepStart(cfg, full, t, pick, sid, code), retention);
  }

  lemma SamePool(db: Db, full: Db, maxPending: nat, c: Channel, pick: Option<Id>)
    requires db == full.(events := db.events)
    ensures IsPick(db, maxPending, c, pick) == IsPick(full, maxPending, c, pick) && Serving(db, c) == Serving(full, c)
  {
    forall n
      ensures PendingOn(db, n) == PendingOn(full, n)
      ensures Eligible(db, maxPending, n, c) == Eligible(full, maxPending, n, c)
    {}
  }

  lemma SameStart(cfg: Config, s: State, full: State, t: Id, pick: Option<Id>, sid: Id, code: string)
    requires s == full.(db := full.db.(events := s.db.events))
    ensures var s', full' := StepStart(cfg, s, t, pick, sid, code), StepStart(cfg, full, t, pick, sid, code);
      && s' == full'.(db := full'.db.(events := s.db.events))
      && s'.db.events == s.db.events && full'.db.events == full.db.events && s'.now == s.now
  {
    if t in s.starts {
      SamePool(s.db, full.db, cfg.maxPending, s.starts[t].plan.channel, pick);
      if s.starts[t].pc.Creating? { SameCreate(cfg, s, full, t, sid, code); }
    }
  }

  lemma SameCreate(cfg: Config, s: State, full: State, t: Id, sid: Id, code: string)
    requires s == full.(db := full.db.(events := s.db.events)) && t in s.starts && s.starts[t].pc.Creating?
    ensures forall pick ::
      var s', full' := StepStart(cfg, s, t, pick, sid, code), StepStart(cfg, full, t, pick, sid, code);
      && s' == full'.(db := full'.db.(events := s.db.events))
      && s'.db.events == s.db.events && full'.db.events == full.db.events && s'.now == s.now
  {
    var th := s.starts[t];
    var row := Candidate(th.plan, th.pc.number, code, s.now);
    assert Conflicts(s.db, row) == Conflicts(full.db, row);
  }

  lemma PrunedPrune(cfg: Config, s: State, full: State, r: nat, retention: nat)
    requires SameButOldRows(s, full, retention) && r >= retention
    ensures SameButOldRows(Apply(cfg, s, Prune(r)), full, retention)
  {
    forall sender, since, unmatchedOnly | since >= s.now - retention
      ensures CountBySender(PruneBefore(s.db.events, s.now - r), sender, since, unmatchedOnly)
           == CountBySender(s.db.events, sender, since, unmatchedOnly)
    {
      PruneIsInvisible(s.db.events, s.now - r, sender, since, unmatchedOnly);
    }
  }

  lemma PrunedStep(cfg: Config, s: State, full: State, a: Action, retention: nat)
    requires SameButOldRows(s, full, retention) && retention >= ABUSE_FAIL_WINDOW && Prompt(s, a, retention)
    ensures SameButOldRows(Apply(cfg, s, a), Apply(cfg, full, if a.Prune? then Tick(0) else a), retention)
  {
    match a {
      case Prune(r) => PrunedPrune(cfg, s, full, r, retention);
      case RemoveDevice(dev) => PrunedDelete(cfg, s, full, dev, retention);
      case StartStep(t, pick, sid, code) => PrunedStart(cfg, s, full, t, pick, sid, code, retention);
      case InboundStep(t, yes, pick) =>
        if t in s.inbounds {
          if InAdmission(s.inbounds[t].pc) { PrunedAdmission(s, full, t, yes, pick, retention); }
          else if InFailure(s.inbounds[t].pc) { PrunedFailure(s, full, t, retention); }
          else { PrunedResolution(cfg, s, full, t, yes, retention); }
        }
      case _ =>
    }
  }

  /**
   A run with prunes and the same run without them agree on every session, block, answer and
   notification; only old audit rows differ.
   */
  lemma {:induction false} PruningChangesNoDecision(cfg: Config, acts: seq<Action>, retention: nat)
    requires retention >= 600_000
    requires forall i | 0 <= i < |acts| :: Prompt(Exec(cfg, acts[..i]), acts[i], retention)
    ensures SameButOldRows(Exec(cfg, acts), Exec(cfg, Unpruned(acts)), retention)
  {
    if acts != [] {
      var n := |acts| - 1;
      var before := acts[..n];
      assert forall i | 0 <= i <= |before| :: before[..i] == acts[..i];
      assert Unpruned(acts)[..n] == Unpruned(before);
      PruningChangesNoDecision(cfg, before, retention);
      PrunedStep(cfg, Exec(cfg, before), Exec(cfg, Unpruned(before)), acts[n], retention);
    }
  }
}
