/**
 When a sender is blocked, and for how long (verify/service.go maybeBlock and its call sites):
 a failed attempt places a block exactly if it saw too many rows, every block is the block of
 such an attempt, and it holds for the hour after the attempt's own clock reading.
 */
module Blocking {
  import opened Wrappers
  import opened Store
  import opened Protocol
  import opened Soundness
  import opened InboundAnswers
  import Tables

  // ---------------------------------------------------------------- the block of an attempt

  function HourOf(sender: string, at: Millis): Block { Block(sender, Some(at + 60 * 60 * 1000)) }

  /** Request t of the sender has placed its block, and at is when its attempt was counted. */
  ghost predicate Placed(cfg: Config, acts: seq<Action>, t: Id, sender: string, at: Millis) {
    exists i: nat :: Moment(cfg, acts, t, i, AtAddBlock)
      && At(cfg, acts, i).inbounds[t].req.sender == sender && At(cfg, acts, i).inbounds[t].failedAt == Some(at)
  }

  lemma PlacedLater(cfg: Config, acts: seq<Action>, a: Action, t: Id, sender: string, at: Millis)
    requires Placed(cfg, acts, t, sender, at)
    ensures Placed(cfg, acts + [a], t, sender, at)
  {
    var i: nat :| Moment(cfg, acts, t, i, AtAddBlock)
      && At(cfg, acts, i).inbounds[t].req.sender == sender && At(cfg, acts, i).inbounds[t].failedAt == Some(at);
    MomentLater(cfg, acts, a, t, i, AtAddBlock);
  }

  /** A new block is the block of a request that has just placed it. */
  lemma PlacedNow(cfg: Config, acts: seq<Action>, a: Action, t: Id, sender: string, at: Millis)
    requires Placed(cfg, acts + [a], t, sender, at) && !Placed(cfg, acts, t, sender, at)
    ensures a.InboundStep? && a.t == t && t in Exec(cfg, acts).inbounds
    ensures var th := Exec(cfg, acts).inbounds[t]; th.pc.AddBlock? && th.req.sender == sender && th.failedAt == Some(at)
  {
    var i: nat :| Moment(cfg, acts + [a], t, i, AtAddBlock)
      && At(cfg, acts + [a], i).inbounds[t].req.sender == sender && At(cfg, acts + [a], i).inbounds[t].failedAt == Some(at);
    if i < |acts| {
      MomentLater(cfg, acts, a, t, i, AtAddBlock);
    } else {
      OneMore(cfg, acts, a);
    }
  }

  /** The blocks are those of the requests that placed one. */
  ghost predicate BlocksArePlaced(cfg: Config, acts: seq<Action>) {
    var blocks := Exec(cfg, acts).db.blocks;
    && (forall b | b in blocks :: exists t, at :: Placed(cfg, acts, t, b.target, at) && b == HourOf(b.target, at))
    && (forall t, sender, at | Placed(cfg, acts, t, sender, at) :: HourOf(sender, at) in blocks)
  }

  /** The step in which a request places its block. */
  predicate Places(s: State, a: Action) { a.InboundStep? && a.t in s.inbounds && s.inbounds[a.t].pc.AddBlock? }

  /** Only those steps change the blocks. */
  ghost predicate BlocksGrow(s: State, s': State, a: Action) {
    && s'.db.blocks == s.db.blocks + (if Places(s, a) then [HourOf(s.inbounds[a.t].req.sender, s.inbounds[a.t].pc.at)] else [])
    && (Places(s, a) ==> a.t in s'.inbounds && s'.inbounds[a.t].pc.Auditing?)
  }

  lemma BlocksStep(cfg: Config, s: State, a: Action)
    ensures BlocksGrow(s, Apply(cfg, s, a), a)
  {
    if a.InboundStep? && a.t in s.inbounds {
      var th := s.inbounds[a.t];
      if InAdmission(th.pc) { assert StepAdmission(s, a.t, th, a.yes, a.pick).db == s.db; }
      else if !InFailure(th.pc) { ResolutionKeepsBlocks(cfg, s, a.t, th, a.yes); }
    }
  }

  lemma ResolutionKeepsBlocks(cfg: Config, s: State, t: Id, th: InboundThread, yes: bool)
    ensures StepResolution(cfg, s, t, th, yes).db.blocks == s.db.blocks
  {}

  lemma PlacedStep(cfg: Config, acts: seq<Action>, a: Action)
    requires BlocksArePlaced(cfg, acts)
    ensures BlocksArePlaced(cfg, acts + [a])
  {
    OneMore(cfg, acts, a);
    RunsAreTraced(cfg, acts);
    BlocksStep(cfg, Exec(cfg, acts), a);
    BlocksHaveOwners(cfg, acts, a, Exec(cfg, acts), Exec(cfg, acts + [a]));
    OwnersHaveBlocks(cfg, acts, a, Exec(cfg, acts), Exec(cfg, acts + [a]));
  }

  lemma BlocksHaveOwners(cfg: Config, acts: seq<Action>, a: Action, s: State, s': State)
    requires BlocksArePlaced(cfg, acts) && Traced(cfg, acts) && BlocksGrow(s, s', a)
    requires s == Exec(cfg, acts) && At(cfg, acts + [a], |acts|) == s && At(cfg, acts + [a], |acts| + 1) == s'
    ensures forall b | b in s'.db.blocks :: exists t, at :: Placed(cfg, acts + [a], t, b.target, at) && b == HourOf(b.target, at)
  {
    forall b | b in s'.db.blocks
      ensures exists t, at :: Placed(cfg, acts + [a], t, b.target, at) && b == HourOf(b.target, at)
    {
      if b in s.db.blocks {
        var t, at :| Placed(cfg, acts, t, b.target, at) && b == HourOf(b.target, at);
        PlacedLater(cfg, acts, a, t, b.target, at);
      } else {
        PlacesItsBlock(cfg, acts, a, s, s');
      }
    }
  }

  lemma PlacesItsBlock(cfg: Config, acts: seq<Action>, a: Action, s: State, s': State)
    requires Places(s, a) && BlocksGrow(s, s', a) && Proper(s.inbounds[a.t])
    requires At(cfg, acts + [a], |acts|) == s && At(cfg, acts + [a], |acts| + 1) == s'
    ensures Placed(cfg, acts + [a], a.t, s.inbounds[a.t].req.sender, s.inbounds[a.t].pc.at)
  {
    assert (acts + [a])[|acts|] == a;
    assert Moment(cfg, acts + [a], a.t, |acts|, AtAddBlock);
  }

  lemma OwnersHaveBlocks(cfg: Config, acts: seq<Action>, a: Action, s: State, s': State)
    requires BlocksArePlaced(cfg, acts) && Traced(cfg, acts) && BlocksGrow(s, s', a) && s == Exec(cfg, acts)
    ensures forall t, sender, at | Placed(cfg, acts + [a], t, sender, at) :: HourOf(sender, at) in s'.db.blocks
  {
    forall t, sender, at | Placed(cfg, acts + [a], t, sender, at)
      ensures HourOf(sender, at) in s'.db.blocks
    {
      if !Placed(cfg, acts, t, sender, at) { PlacedNow(cfg, acts, a, t, sender, at); }
    }
  }

  lemma {:induction false} RunsPlaceBlocks(cfg: Config, acts: seq<Action>)
    ensures BlocksArePlaced(cfg, acts)
  {
    if acts == [] {
      assert forall t, sender, at :: !Placed(cfg, [], t, sender, at);
    } else {
      var before := acts[..|acts| - 1];
      RunsPlaceBlocks(cfg, before);
      PlacedStep(cfg, before, acts[|acts| - 1]);
      assert before + [acts[|acts| - 1]] == acts;
    }
  }

  // ---------------------------------------------------------------- when an attempt blocks

  /** Unmatched rows of the sender in the ten minutes before now. */
  ghost function RecentFailures(events: seq<Event>, sender: string, now: Millis): set<nat> {
    set k | 0 <= k < |events| && events[k].sender == sender && events[k].matched.None? && events[k].at > now - 10 * 60 * 1000
  }

  /** Rows of the sender, matched or not, in the five minutes before at. */
  ghost function RecentRows(events: seq<Event>, sender: string, at: Millis): set<nat> {
    set k | 0 <= k < |events| && events[k].sender == sender && events[k].at > at - 5 * 60 * 1000
  }

  /** At its failure count four such rows were there, so that this failure is the fifth. */
  ghost predicate SawFailures(cfg: Config, acts: seq<Action>, t: Id) {
    exists i: nat :: Moment(cfg, acts, t, i, AtFailCount)
      && |RecentFailures(At(cfg, acts, i).db.events, At(cfg, acts, i).inbounds[t].req.sender, At(cfg, acts, i).now)| >= 4
  }

  /** At its flood count nineteen such rows were there, so that this signal is the twentieth. */
  ghost predicate SawFlood(cfg: Config, acts: seq<Action>, t: Id) {
    exists i: nat, at :: Moment(cfg, acts, t, i, AtFloodCount) && At(cfg, acts, i).inbounds[t].failedAt == Some(at)
      && |RecentRows(At(cfg, acts, i).db.events, At(cfg, acts, i).inbounds[t].req.sender, at)| >= 19
  }

  lemma FailuresCounted(events: seq<Event>, sender: string, now: Millis)
    ensures CountBySender(events, sender, now - ABUSE_FAIL_WINDOW, true) == |RecentFailures(events, sender, now)|
  {
    Tables.CountIsCardinality(events, sender, now - ABUSE_FAIL_WINDOW, true);
    assert Tables.CountedRows(events, sender, now - ABUSE_FAIL_WINDOW, true) == RecentFailures(events, sender, now);
  }

  lemma RowsCounted(events: seq<Event>, sender: string, at: Millis)
    ensures CountBySender(events, sender, at - ABUSE_FLOOD_WINDOW, false) == |RecentRows(events, sender, at)|
  {
    Tables.CountIsCardinality(events, sender, at - ABUSE_FLOOD_WINDOW, false);
    assert Tables.CountedRows(events, sender, at - ABUSE_FLOOD_WINDOW, false) == RecentRows(events, sender, at);
  }

  /** What the two counts lead to. */
  ghost predicate CountsLead(s: State, s': State, t: Id) {
    && t in s.inbounds && t in s'.inbounds
    && var th, th' := s.inbounds[t], s'.inbounds[t];
       && (th.pc.FailCount? ==>
             && th'.failedAt == Some(s.now)
             && if |RecentFailures(s.db.events, th.req.sender, s.now)| >= 4 then th'.pc.AddBlock? else th'.pc.FloodCount?)
       && (th.pc.FloodCount? ==>
             && th.failedAt.Some?
             && if |RecentRows(s.db.events, th.req.sender, th.failedAt.value)| >= 19 then th'.pc.AddBlock? else th'.pc.Auditing?)
       && (th'.pc.AddBlock? ==> th.pc.FailCount? || th.pc.FloodCount? || th.pc.AddBlock?)
  }

  lemma CountStep(cfg: Config, s: State, t: Id, yes: bool, pick: Option<Id>)
    requires t in s.inbounds && Proper(s.inbounds[t])
    ensures CountsLead(s, StepInbound(cfg, s, t, yes, pick), t)
  {
    var th := s.inbounds[t];
    FailuresCounted(s.db.events, th.req.sender, s.now);
    if th.failedAt.Some? { RowsCounted(s.db.events, th.req.sender, th.failedAt.value); }
  }

  lemma MomentCounts(cfg: Config, acts: seq<Action>, t: Id, i: nat, stage: Stage)
    requires Moment(cfg, acts, t, i, stage)
    ensures CountsLead(At(cfg, acts, i), At(cfg, acts, i + 1), t)
  {
    MomentStep(cfg, acts, t, i, stage);
    RecordsAreProper(cfg, acts[..i], t);
    CountStep(cfg, At(cfg, acts, i), t, acts[i].yes, acts[i].pick);
  }

  ghost predicate Blockable(cfg: Config, acts: seq<Action>, t: Id) { SawFailures(cfg, acts, t) || SawFlood(cfg, acts, t) }

  /** A request about to place its block, or past that, has seen too many rows. */
  ghost predicate BlockersSaw(cfg: Config, acts: seq<Action>) {
    var s := Exec(cfg, acts);
    forall t | t in s.inbounds && (s.inbounds[t].pc.AddBlock? || Passed(cfg, acts, t, AtAddBlock)) :: Blockable(cfg, acts, t)
  }

  lemma BlockableLater(cfg: Config, acts: seq<Action>, a: Action, t: Id)
    requires Blockable(cfg, acts, t)
    ensures Blockable(cfg, acts + [a], t)
  {
    if SawFailures(cfg, acts, t) {
      var i: nat :| Moment(cfg, acts, t, i, AtFailCount)
        && |RecentFailures(At(cfg, acts, i).db.events, At(cfg, acts, i).inbounds[t].req.sender, At(cfg, acts, i).now)| >= 4;
      MomentLater(cfg, acts, a, t, i, AtFailCount);
    } else {
      var i: nat, at :| Moment(cfg, acts, t, i, AtFloodCount) && At(cfg, acts, i).inbounds[t].failedAt == Some(at)
        && |RecentRows(At(cfg, acts, i).db.events, At(cfg, acts, i).inbounds[t].req.sender, at)| >= 19;
      MomentLater(cfg, acts, a, t, i, AtFloodCount);
    }
  }

  /** The step in which a request comes to be about to place its block. */
  lemma BecomesBlocker(cfg: Config, acts: seq<Action>, a: Action)
    requires a.InboundStep? && a.t in Exec(cfg, acts).inbounds && !Exec(cfg, acts).inbounds[a.t].pc.AddBlock?
    requires a.t in Exec(cfg, acts + [a]).inbounds && Exec(cfg, acts + [a]).inbounds[a.t].pc.AddBlock?
    ensures Blockable(cfg, acts + [a], a.t)
  {
    var stage := StageOf(Exec(cfg, acts).inbounds[a.t].pc);
    NewMoment(cfg, acts, a, a.t);
    MomentCounts(cfg, acts + [a], a.t, |acts|, stage);
    OneMore(cfg, acts, a);
    CountedMoment(cfg, acts + [a], a.t, |acts|, stage);
  }

  lemma CountedMoment(cfg: Config, acts: seq<Action>, t: Id, i: nat, stage: Stage)
    requires Moment(cfg, acts, t, i, stage) && CountsLead(At(cfg, acts, i), At(cfg, acts, i + 1), t)
    requires !stage.AtAddBlock? && At(cfg, acts, i + 1).inbounds[t].pc.AddBlock?
    ensures Blockable(cfg, acts, t)
  {
    var th := At(cfg, acts, i).inbounds[t];
    assert th.pc.FailCount? ==> Moment(cfg, acts, t, i, AtFailCount);
    assert th.pc.FloodCount? ==> Moment(cfg, acts, t, i, AtFloodCount) && th.failedAt.Some?;
  }

  lemma BlockersStep(cfg: Config, acts: seq<Action>, a: Action)
    requires BlockersSaw(cfg, acts)
    ensures BlockersSaw(cfg, acts + [a])
  {
    var s, s' := Exec(cfg, acts), Exec(cfg, acts + [a]);
    OneMore(cfg, acts, a);
    forall t | t in s'.inbounds && (s'.inbounds[t].pc.AddBlock? || Passed(cfg, acts + [a], t, AtAddBlock))
      ensures Blockable(cfg, acts + [a], t)
    {
      WasBlocker(cfg, acts, a, t);
      if t in s.inbounds && (s.inbounds[t].pc.AddBlock? || Passed(cfg, acts, t, AtAddBlock)) {
        BlockableLater(cfg, acts, a, t);
      } else {
        BecomesBlocker(cfg, acts, a);
      }
    }
  }

  lemma WasBlocker(cfg: Config, acts: seq<Action>, a: Action, t: Id)
    requires var s' := Exec(cfg, acts + [a]);
      t in s'.inbounds && (s'.inbounds[t].pc.AddBlock? || Passed(cfg, acts + [a], t, AtAddBlock))
    ensures var s, s' := Exec(cfg, acts), Exec(cfg, acts + [a]);
      || (t in s.inbounds && (s.inbounds[t].pc.AddBlock? || Passed(cfg, acts, t, AtAddBlock)))
      || (a.InboundStep? && a.t == t && t in s.inbounds && !s.inbounds[t].pc.AddBlock? && s'.inbounds[t].pc.AddBlock?)
  {
    var s, s' := Exec(cfg, acts), Exec(cfg, acts + [a]);
    OneMore(cfg, acts, a);
    if Passed(cfg, acts + [a], t, AtAddBlock) {
      var i: nat :| Moment(cfg, acts + [a], t, i, AtAddBlock);
      if i < |acts| {
        MomentLater(cfg, acts, a, t, i, AtAddBlock);
        NarrowsSince(cfg, acts, i, t);
      }
    } else if t !in s.inbounds {
      BegunFresh(cfg, s, a, t);
    } else if !(a.InboundStep? && a.t == t) {
      InboundsKept(cfg, s, a, t);
    }
  }

  lemma {:induction false} BlockersHaveSeen(cfg: Config, acts: seq<Action>)
    ensures BlockersSaw(cfg, acts)
  {
    if acts != [] {
      var before := acts[..|acts| - 1];
      BlockersHaveSeen(cfg, before);
      BlockersStep(cfg, before, acts[|acts| - 1]);
      assert before + [acts[|acts| - 1]] == acts;
    }
  }

  /** A request that has left a stage did so in some step. */
  lemma {:induction false} HasLeft(cfg: Config, acts: seq<Action>, t: Id, i: nat)
    requires i <= |acts| && t in At(cfg, acts, i).inbounds && t in Exec(cfg, acts).inbounds
    requires Exec(cfg, acts).inbounds[t].pc != At(cfg, acts, i).inbounds[t].pc
    ensures Passed(cfg, acts, t, StageOf(At(cfg, acts, i).inbounds[t].pc))
    decreases |acts|
  {
    assert acts[..|acts|] == acts;
    if i < |acts| {
      var before, a, pc := acts[..|acts| - 1], acts[|acts| - 1], At(cfg, acts, i).inbounds[t].pc;
      assert before + [a] == acts && before[..i] == acts[..i];
      OneMore(cfg, before, a);
      NarrowsSince(cfg, before, i, t);
      if Exec(cfg, before).inbounds[t].pc != pc {
        HasLeft(cfg, before, t, i);
        PassedLater(cfg, before, a, t, StageOf(pc));
      } else if a.InboundStep? && a.t == t {
        NewMoment(cfg, before, a, t);
      } else {
        InboundsKept(cfg, Exec(cfg, before), a, t);
      }
    }
  }

  // ---------------------------------------------------------------- main results

  /** Once a request is about to place its block, it does so before it is answered. */
  lemma MomentBlocks(cfg: Config, acts: seq<Action>, t: Id, i: nat, o: InboundOutcome)
    requires Finished(cfg, acts, t, o)
    requires i < |acts| && t in At(cfg, acts, i + 1).inbounds && At(cfg, acts, i + 1).inbounds[t].pc.AddBlock?
    ensures Passed(cfg, acts, t, AtAddBlock)
  {
    HasLeft(cfg, acts, t, i + 1);
  }

  lemma CountedAt(cfg: Config, acts: seq<Action>, t: Id, i: nat)
    requires Moment(cfg, acts, t, i, AtFailCount)
    ensures var s, th := At(cfg, acts, i), At(cfg, acts, i + 1).inbounds[t];
      && th.failedAt == Some(s.now)
      && (th.pc.AddBlock? <==> |RecentFailures(s.db.events, s.inbounds[t].req.sender, s.now)| >= 4)
  {
    MomentCounts(cfg, acts, t, i, AtFailCount);
  }

  lemma FloodCountedAt(cfg: Config, acts: seq<Action>, t: Id, i: nat)
    requires Moment(cfg, acts, t, i, AtFloodCount)
    ensures var s, th := At(cfg, acts, i), At(cfg, acts, i).inbounds[t];
      th.failedAt.Some?
      && (At(cfg, acts, i + 1).inbounds[t].pc.AddBlock? <==> |RecentRows(s.db.events, th.req.sender, th.failedAt.value)| >= 19)
  {
    MomentCounts(cfg, acts, t, i, AtFloodCount);
  }

  lemma SeenMeansPlaced(cfg: Config, acts: seq<Action>, t: Id, o: InboundOutcome)
    requires Finished(cfg, acts, t, o) && Blockable(cfg, acts, t)
    ensures Passed(cfg, acts, t, AtAddBlock)
  {
    if SawFailures(cfg, acts, t) {
      var i: nat :| Moment(cfg, acts, t, i, AtFailCount)
        && |RecentFailures(At(cfg, acts, i).db.events, At(cfg, acts, i).inbounds[t].req.sender, At(cfg, acts, i).now)| >= 4;
      CountedAt(cfg, acts, t, i);
      MomentBlocks(cfg, acts, t, i, o);
    } else {
      var i: nat, at :| Moment(cfg, acts, t, i, AtFloodCount) && At(cfg, acts, i).inbounds[t].failedAt == Some(at)
        && |RecentRows(At(cfg, acts, i).db.events, At(cfg, acts, i).inbounds[t].req.sender, at)| >= 19;
      FloodCountedAt(cfg, acts, t, i);
      MomentBlocks(cfg, acts, t, i, o);
    }
  }

  /**
   A finished request has placed a block exactly if its own counts saw four unmatched rows of
   its sender in the last ten minutes, or nineteen rows in the last five. Only unmatched
   signals and mismatched claims are counted at all, at the clock reading of their first count.
   */
  lemma BlocksExactlyAbusers(cfg: Config, acts: seq<Action>, t: Id, o: InboundOutcome)
    requires Finished(cfg, acts, t, o)
    ensures var th := Exec(cfg, acts).inbounds[t];
      && (th.failedAt.Some? <==> o == Unmatched(NoMatch) || o == Unmatched(ClaimMismatch))
      && (Passed(cfg, acts, t, AtAddBlock) <==> SawFailures(cfg, acts, t) || SawFlood(cfg, acts, t))
      && (Passed(cfg, acts, t, AtAddBlock) ==> th.failedAt.Some? && Placed(cfg, acts, t, th.req.sender, th.failedAt.value))
    ensures forall i: nat | Moment(cfg, acts, t, i, AtFailCount) :: Exec(cfg, acts).inbounds[t].failedAt == Some(At(cfg, acts, i).now)
  {
    RecordsAreProper(cfg, acts, t);
    BlockersHaveSeen(cfg, acts);
    if Blockable(cfg, acts, t) { SeenMeansPlaced(cfg, acts, t, o); }
    if Passed(cfg, acts, t, AtAddBlock) { PlacedAtItsCount(cfg, acts, t); }
    forall i: nat | Moment(cfg, acts, t, i, AtFailCount)
      ensures Exec(cfg, acts).inbounds[t].failedAt == Some(At(cfg, acts, i).now)
    {
      CountSetsTime(cfg, acts, t, i);
    }
  }

  lemma CountSetsTime(cfg: Config, acts: seq<Action>, t: Id, i: nat)
    requires Moment(cfg, acts, t, i, AtFailCount)
    ensures t in Exec(cfg, acts).inbounds && Exec(cfg, acts).inbounds[t].failedAt == Some(At(cfg, acts, i).now)
  {
    CountedAt(cfg, acts, t, i);
    NarrowsSince(cfg, acts, i + 1, t);
  }

  lemma PlacedAtItsCount(cfg: Config, acts: seq<Action>, t: Id)
    requires t in Exec(cfg, acts).inbounds && Passed(cfg, acts, t, AtAddBlock)
    ensures var th := Exec(cfg, acts).inbounds[t]; th.failedAt.Some? && Placed(cfg, acts, t, th.req.sender, th.failedAt.value)
  {
    var i: nat :| Moment(cfg, acts, t, i, AtAddBlock);
    RecordsAreProper(cfg, acts[..i], t);
    NarrowsSince(cfg, acts, i, t);
    assert At(cfg, acts, i).inbounds[t].pc.AddBlock?;
  }

  /** The sender's blocks that stood at moment i. */
  ghost predicate WithinTheHour(cfg: Config, acts: seq<Action>, i: nat, sender: string)
    requires i <= |acts|
  {
    exists u, at :: Placed(cfg, acts[..i], u, sender, at) && At(cfg, acts, i).now < at + 3_600_000
  }

  /**
   A request is answered blocked exactly if, at its own block check, some request of its sender
   had placed its block and less than an hour had passed since that request's failure was
   counted: a block stops every later check for the hour, and nobody after it.
   */
  lemma BlockedForAnHour(cfg: Config, acts: seq<Action>, t: Id, o: InboundOutcome)
    requires Finished(cfg, acts, t, o)
    ensures o == Unmatched(Blocked) <==>
      exists i: nat :: Moment(cfg, acts, t, i, AtBlockCheck) && WithinTheHour(cfg, acts, i, Exec(cfg, acts).inbounds[t].req.sender)
  {
    var sender := Exec(cfg, acts).inbounds[t].req.sender;
    forall i: nat | Moment(cfg, acts, t, i, AtBlockCheck)
      ensures o == Unmatched(Blocked) <==> WithinTheHour(cfg, acts, i, sender)
    {
      CheckSeesTheHour(cfg, acts, t, i, o);
    }
    if o == Unmatched(Blocked) { HasPassed(cfg, acts, t, o, AtBlockCheck); }
  }

  lemma CheckSeesTheHour(cfg: Config, acts: seq<Action>, t: Id, i: nat, o: InboundOutcome)
    requires Finished(cfg, acts, t, o) && Moment(cfg, acts, t, i, AtBlockCheck)
    ensures o == Unmatched(Blocked) <==> WithinTheHour(cfg, acts, i, Exec(cfg, acts).inbounds[t].req.sender)
  {
    var s, sender := At(cfg, acts, i), Exec(cfg, acts).inbounds[t].req.sender;
    BlockCheckDecides(cfg, acts, t, i, o);
    RunsPlaceBlocks(cfg, acts[..i]);
    if WithinTheHour(cfg, acts, i, sender) {
      var u, at :| Placed(cfg, acts[..i], u, sender, at) && s.now < at + 3_600_000;
      assert HourOf(sender, at) in s.db.blocks;
    }
    if b :| b in s.db.blocks && b.target == sender && (b.until.None? || b.until.value > s.now) {
      var u, at :| Placed(cfg, acts[..i], u, b.target, at) && b == HourOf(b.target, at);
    }
  }
}
