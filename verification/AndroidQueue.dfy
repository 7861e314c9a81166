/**
 The Android receiver's inbound buffer (data/InboundQueue.kt) and its drain loop
 (InboundDispatcher.kt).

 Queue operations are atomic (they hold the queue's lock) and change the preferences in
 memory; the disk copy follows later, whenever the platform gets to writing it. The SMS and
 call listeners may enqueue between any two operations of the one drain, the drain may stop at
 any point, and the process may be killed at any point, which leaves what the disk holds. A run
 is a sequence of such steps.
 */
module AndroidQueue {
  import opened Wrappers

  const MAX_ENTRIES := 500

  datatype Kind = Sms | Call

  datatype Event = Event(number: string, kind: Kind, sender: string, body: string, receivedAt: int)

  /** A status code and whether the body parses, or no reply at all. */
  datatype Reply = Response(code: int, json: bool, matched: bool) | NoReply

  /** What the client makes of a reply. */
  datatype Outcome = Ok(matched: bool) | HttpError(retryable: bool) | NetworkError

  function OutcomeOf(r: Reply): Outcome {
    if r.NoReply? then NetworkError
    else if !(200 <= r.code < 300) then HttpError(r.code >= 500 || r.code == 429)
    else if !r.json then HttpError(false)
    else Ok(r.matched)
  }

  /** Char.isWhitespace on ASCII is what isBlank needs to know here. */
  predicate IsBlank(s: string) {
    forall i | 0 <= i < |s| :: s[i] == ' ' || '\t' <= s[i] <= '\r' || '\U{1c}' <= s[i] <= '\U{1f}'
  }

  function Trimmed(q: seq<Event>): (r: seq<Event>)
    ensures |r| <= MAX_ENTRIES
  {
    if |q| > MAX_ENTRIES then q[|q| - MAX_ENTRIES..] else q
  }

  function Overflow(q: seq<Event>): seq<Event> {
    if |q| > MAX_ENTRIES then q[..|q| - MAX_ENTRIES] else []
  }

  function RemoveFirst(q: seq<Event>, e: Event): seq<Event> {
    if q == [] then []
    else if q[0] == e then q[1..]
    else [q[0]] + RemoveFirst(q[1..], e)
  }

  // ---------------------------------------------------------------- steps

  datatype DrainPc =
    | Idle
    | AtEntry(i: nat)      // about to resolve and send snapshot[i]
    | Answered(i: nat)     // the server took or refused snapshot[i]; removal is next

  datatype Step =
    | Enqueue(event: Event)
    | BeginDrain
    | Attempt(resolved: Option<string>, reply: Reply)
    | Remove
    | Stop
    | Persist
    | Kill

  /**
   queue is the list in memory and disk its last written copy. pc and snapshot are the drain's
   local state. The rest is history: everything enqueued, dropped by overflow, removed, and
   every queued value the server accepted or permanently refused; unsavedIn and unsavedOut are
   what entered and left the queue since the last write; lost and revived are what kills undid
   of the one and the other. sent holds the snapshot indices of the current drain's sends.
   */
  datatype World = World(
    queue: seq<Event>, disk: seq<Event>, pc: DrainPc, snapshot: seq<Event>,
    enqueued: multiset<Event>, dropped: multiset<Event>, removed: multiset<Event>, settled: multiset<Event>,
    unsavedIn: multiset<Event>, unsavedOut: multiset<Event>, lost: multiset<Event>, revived: multiset<Event>,
    sent: seq<nat>)

  const EMPTY := World([], [], Idle, [], multiset{}, multiset{}, multiset{}, multiset{},
                       multiset{}, multiset{}, multiset{}, multiset{}, [])

  function AtOrDone(i: nat, snapshot: seq<Event>): DrainPc { if i < |snapshot| then AtEntry(i) else Idle }

  /** The event as it is sent: a blank number is filled in from the provisioned ones. */
  function Filled(queued: Event, resolved: Option<string>): Option<Event> {
    if !IsBlank(queued.number) then Some(queued)
    else if resolved.None? || IsBlank(resolved.value) then None
    else Some(queued.(number := resolved.value))
  }

  predicate Settles(r: Reply) {
    var o := OutcomeOf(r);
    o.Ok? || (o.HttpError? && !o.retryable)
  }

  function Apply(w: World, s: Step): World {
    match s
    case Enqueue(e) =>
      w.(queue := Trimmed(w.queue + [e]), enqueued := w.enqueued + multiset{e},
         dropped := w.dropped + multiset(Overflow(w.queue + [e])),
         unsavedIn := w.unsavedIn + multiset{e}, unsavedOut := w.unsavedOut + multiset(Overflow(w.queue + [e])))
    case BeginDrain =>
      if w.pc.Idle? then w.(snapshot := w.queue, pc := AtOrDone(0, w.queue), sent := []) else w
    case Attempt(resolved, reply) =>
      if !w.pc.AtEntry? || w.pc.i >= |w.snapshot| then w
      else
        var queued := w.snapshot[w.pc.i];
        if Filled(queued, resolved).None? then w.(pc := AtOrDone(w.pc.i + 1, w.snapshot))
        else if Settles(reply) then
          w.(pc := Answered(w.pc.i), settled := w.settled + multiset{queued}, sent := w.sent + [w.pc.i])
        else w.(pc := Idle, sent := w.sent + [w.pc.i])
    case Remove =>
      if !w.pc.Answered? || w.pc.i >= |w.snapshot| then w
      else
        var queued := w.snapshot[w.pc.i];
        var gone := if queued in w.queue then multiset{queued} else multiset{};
        w.(queue := RemoveFirst(w.queue, queued), pc := AtOrDone(w.pc.i + 1, w.snapshot),
           removed := w.removed + gone, unsavedOut := w.unsavedOut + gone)
    case Stop => w.(pc := Idle)
    case Persist => w.(disk := w.queue, unsavedIn := multiset{}, unsavedOut := multiset{})
    case Kill =>
      w.(queue := w.disk, pc := Idle, unsavedIn := multiset{}, unsavedOut := multiset{},
         lost := w.lost + w.unsavedIn, revived := w.revived + w.unsavedOut)
  }

  function Run(w: World, steps: seq<Step>): World {
    if steps == [] then w else Apply(Run(w, steps[..|steps| - 1]), steps[|steps| - 1])
  }

  // ---------------------------------------------------------------- invariants

  /** The value whose removal is outstanding: settled but not yet taken off the queue. */
  function Outstanding(w: World): multiset<Event> {
    if w.pc.Answered? && w.pc.i < |w.snapshot| then multiset{w.snapshot[w.pc.i]} else multiset{}
  }

  /** Everything that ever entered the queue is accounted for, value by value. */
  ghost predicate Conserved(w: World) {
    forall e :: multiset(w.queue)[e] + w.dropped[e] + w.removed[e] + w.lost[e] == w.enqueued[e] + w.revived[e]
  }

  /** Memory is the disk copy with the unsaved changes. */
  ghost predicate Lagging(w: World) {
    forall e :: multiset(w.queue)[e] + w.unsavedOut[e] == multiset(w.disk)[e] + w.unsavedIn[e]
  }

  /** Of each value no more is removed than the server has settled. */
  ghost predicate RemovalsSettled(w: World) { w.removed + Outstanding(w) <= w.settled }

  ghost predicate Inv(w: World) {
    Conserved(w) && Lagging(w) && RemovalsSettled(w) && |w.queue| <= MAX_ENTRIES && |w.disk| <= MAX_ENTRIES
  }

  /** Sends of one drain run through the snapshot in order, and none comes twice. */
  ghost predicate InSnapshotOrder(w: World) {
    && (forall a, b | 0 <= a < b < |w.sent| :: w.sent[a] < w.sent[b])
    && (forall a | 0 <= a < |w.sent| :: w.sent[a] < |w.snapshot|)
    && (w.pc.AtEntry? ==> forall a | 0 <= a < |w.sent| :: w.sent[a] < w.pc.i)
    && (w.pc.Answered? ==> forall a | 0 <= a < |w.sent| :: w.sent[a] <= w.pc.i)
  }

  lemma {:induction false} RemoveFirstCounts(q: seq<Event>, e: Event)
    ensures |RemoveFirst(q, e)| <= |q|
    ensures multiset(RemoveFirst(q, e)) + (if e in q then multiset{e} else multiset{}) == multiset(q)
  {
    if q != [] {
      RemoveFirstCounts(q[1..], e);
      assert q == [q[0]] + q[1..];
    }
  }

  lemma OverflowCounts(q: seq<Event>)
    ensures multiset(Trimmed(q)) + multiset(Overflow(q)) == multiset(q)
  {
    if |q| > MAX_ENTRIES {
      assert q == q[..|q| - MAX_ENTRIES] + q[|q| - MAX_ENTRIES..];
    }
  }

  lemma EnqueueKeepsInv(w: World, e: Event)
    requires Inv(w)
    ensures Inv(Apply(w, Enqueue(e)))
  {
    var q := w.queue + [e];
    OverflowCounts(q);
    forall x
      ensures multiset(Trimmed(q))[x] + multiset(Overflow(q))[x] == multiset(w.queue)[x] + multiset{e}[x]
    {
      assert (multiset(Trimmed(q)) + multiset(Overflow(q)))[x] == multiset(q)[x];
    }
  }

  lemma RemoveKeepsInv(w: World)
    requires Inv(w)
    ensures Inv(Apply(w, Remove))
  {
    if w.pc.Answered? && w.pc.i < |w.snapshot| {
      var e := w.snapshot[w.pc.i];
      RemoveFirstCounts(w.queue, e);
      var gone := if e in w.queue then multiset{e} else multiset{};
      forall x
        ensures multiset(RemoveFirst(w.queue, e))[x] + gone[x] == multiset(w.queue)[x]
      {
        assert (multiset(RemoveFirst(w.queue, e)) + gone)[x] == multiset(w.queue)[x];
      }
      assert w.removed + gone <= w.removed + multiset{e};
    }
  }

  /** Forgetting the outstanding removal takes nothing away. */
  lemma FewerOutstanding(w: World, w': World)
    requires RemovalsSettled(w) && Outstanding(w') <= Outstanding(w) && w'.removed == w.removed && w'.settled == w.settled
    ensures RemovalsSettled(w')
  {
    assert w.removed + Outstanding(w') <= w.removed + Outstanding(w);
  }

  /** A step that changes neither copy of the queue nor its accounts. */
  lemma SameAccounts(w: World, w': World)
    requires Inv(w) && RemovalsSettled(w')
    requires w'.queue == w.queue && w'.disk == w.disk && w'.enqueued == w.enqueued && w'.dropped == w.dropped
    requires w'.removed == w.removed && w'.unsavedIn == w.unsavedIn && w'.unsavedOut == w.unsavedOut
    requires w'.lost == w.lost && w'.revived == w.revived
    ensures Inv(w')
  {
    forall e
      ensures multiset(w'.queue)[e] + w'.dropped[e] + w'.removed[e] + w'.lost[e] == w'.enqueued[e] + w'.revived[e]
    {
      assert multiset(w.queue)[e] + w.dropped[e] + w.removed[e] + w.lost[e] == w.enqueued[e] + w.revived[e];
    }
    forall e
      ensures multiset(w'.queue)[e] + w'.unsavedOut[e] == multiset(w'.disk)[e] + w'.unsavedIn[e]
    {
      assert multiset(w.queue)[e] + w.unsavedOut[e] == multiset(w.disk)[e] + w.unsavedIn[e];
    }
  }

  lemma AttemptKeepsInv(w: World, resolved: Option<string>, reply: Reply)
    requires Inv(w)
    ensures Inv(Apply(w, Attempt(resolved, reply)))
  {
    if w.pc.AtEntry? && w.pc.i < |w.snapshot| {
      AttemptKeepsRemovals(w, resolved, reply);
      SameAccounts(w, Apply(w, Attempt(resolved, reply)));
    }
  }

  lemma AttemptKeepsRemovals(w: World, resolved: Option<string>, reply: Reply)
    requires RemovalsSettled(w) && w.pc.AtEntry? && w.pc.i < |w.snapshot|
    ensures RemovalsSettled(Apply(w, Attempt(resolved, reply)))
  {
    var w' := Apply(w, Attempt(resolved, reply));
    if w'.pc.Answered? {
      OneMoreSettled(w, w', w.snapshot[w.pc.i]);
    } else {
      FewerOutstanding(w, w');
    }
  }

  lemma OneMoreSettled(w: World, w': World, queued: Event)
    requires RemovalsSettled(w) && Outstanding(w) == multiset{} && Outstanding(w') == multiset{queued}
    requires w'.removed == w.removed && w'.settled == w.settled + multiset{queued}
    ensures RemovalsSettled(w')
  {
    assert w.removed + multiset{queued} <= w.settled + multiset{queued};
  }

  lemma KillKeepsInv(w: World)
    requires Inv(w)
    ensures Inv(Apply(w, Kill))
  {
    FewerOutstanding(w, Apply(w, Kill));
  }

  lemma IdleKeepsInv(w: World, s: Step)
    requires Inv(w) && (s.BeginDrain? || s.Stop?)
    ensures Inv(Apply(w, s))
  {
    IdleEffect(w, s);
    FewerOutstanding(w, Apply(w, s));
    SameAccounts(w, Apply(w, s));
  }

  lemma IdleEffect(w: World, s: Step)
    requires s.BeginDrain? || s.Stop?
    ensures var w' := Apply(w, s);
      && w'.queue == w.queue && w'.disk == w.disk && w'.enqueued == w.enqueued && w'.dropped == w.dropped
      && w'.removed == w.removed && w'.settled == w.settled && w'.unsavedIn == w.unsavedIn && w'.unsavedOut == w.unsavedOut
      && w'.lost == w.lost && w'.revived == w.revived && Outstanding(w') <= Outstanding(w)
  {}

  lemma PersistKeepsInv(w: World)
    requires Inv(w)
    ensures Inv(Apply(w, Persist))
  {
    FewerOutstanding(w, Apply(w, Persist));
  }

  lemma InvStep(w: World, s: Step)
    requires Inv(w)
    ensures Inv(Apply(w, s))
  {
    match s {
      case Enqueue(e) => EnqueueKeepsInv(w, e);
      case Remove => RemoveKeepsInv(w);
      case Attempt(resolved, reply) => AttemptKeepsInv(w, resolved, reply);
      case BeginDrain => IdleKeepsInv(w, s);
      case Stop => IdleKeepsInv(w, s);
      case Persist => PersistKeepsInv(w);
      case Kill => KillKeepsInv(w);
    }
  }

  lemma {:induction false} Reachable(steps: seq<Step>)
    ensures Inv(Run(EMPTY, steps))
  {
    if steps != [] {
      Reachable(steps[..|steps| - 1]);
      InvStep(Run(EMPTY, steps[..|steps| - 1]), steps[|steps| - 1]);
    }
  }

  /**
   Of each value: what was enqueued, and what kills brought back, is still queued, was dropped
   by overflow, was removed, or was lost in a kill; and no more copies are removed than the
   server accepted or permanently refused. However enqueues, disk writes, stops and kills
   interleave with the drain, and however many equal events there are.
   */
  lemma BufferConservesEvents(steps: seq<Step>)
    ensures var w := Run(EMPTY, steps);
      && (forall e :: multiset(w.queue)[e] + w.dropped[e] + w.removed[e] + w.lost[e] == w.enqueued[e] + w.revived[e])
      && (forall e :: w.removed[e] <= w.settled[e])
      && |w.queue| <= 500
  {
    Reachable(steps);
    var w := Run(EMPTY, steps);
    assert w.removed <= w.removed + Outstanding(w);
  }

  /** The buffer drops nothing until it holds 500 events, and then its oldest for each new one. */
  lemma FullBufferDropsOldest(steps: seq<Step>, e: Event)
    ensures var w, w' := Run(EMPTY, steps), Run(EMPTY, steps + [Enqueue(e)]);
      if |w.queue| < 500 then w'.queue == w.queue + [e] && w'.dropped == w.dropped
      else |w.queue| == 500 && w'.queue == w.queue[1..] + [e] && w'.dropped == w.dropped + multiset{w.queue[0]}
  {
    Reachable(steps);
    assert (steps + [Enqueue(e)])[..|steps|] == steps;
    OverflowsByOne(Run(EMPTY, steps).queue, e);
  }

  lemma OverflowsByOne(q: seq<Event>, e: Event)
    requires |q| <= MAX_ENTRIES
    ensures if |q| < 500 then Trimmed(q + [e]) == q + [e] && Overflow(q + [e]) == []
            else |q| == 500 && Trimmed(q + [e]) == q[1..] + [e] && Overflow(q + [e]) == [q[0]]
  {}

  // ---------------------------------------------------------------- exactly when nothing is lost or comes back

  /** Enqueued is queued, dropped or removed. */
  ghost predicate Balanced(w: World) {
    forall e :: multiset(w.queue)[e] + w.dropped[e] + w.removed[e] == w.enqueued[e]
  }

  /** After every step of the run. */
  ghost predicate AlwaysBalanced(steps: seq<Step>) {
    Balanced(Run(EMPTY, steps)) && (steps != [] ==> AlwaysBalanced(steps[..|steps| - 1]))
  }

  /** The kill finds the same events on disk as in memory. */
  ghost predicate KillsNothing(w: World, s: Step) { s.Kill? ==> multiset(w.queue) == multiset(w.disk) }

  ghost predicate KillsFindDiskCurrent(steps: seq<Step>) {
    steps != [] ==>
      var n := |steps| - 1;
      KillsFindDiskCurrent(steps[..n]) && KillsNothing(Run(EMPTY, steps[..n]), steps[n])
  }

  lemma BalancedMeans(w: World)
    requires Inv(w)
    ensures Balanced(w) <==> w.lost == w.revived
  {
    if Balanced(w) {
      forall e
        ensures w.lost[e] == w.revived[e]
      {
        assert multiset(w.queue)[e] + w.dropped[e] + w.removed[e] == w.enqueued[e];
      }
    }
  }

  lemma OnlyKillsLose(w: World, s: Step)
    requires !s.Kill?
    ensures Apply(w, s).lost == w.lost && Apply(w, s).revived == w.revived
  {}

  lemma KillEvensOut(w: World)
    requires Inv(w) && w.lost == w.revived
    ensures Apply(w, Kill).lost == Apply(w, Kill).revived <==> multiset(w.queue) == multiset(w.disk)
  {
    if w.lost + w.unsavedIn == w.revived + w.unsavedOut {
      forall e
        ensures multiset(w.queue)[e] == multiset(w.disk)[e]
      {
        assert (w.lost + w.unsavedIn)[e] == (w.revived + w.unsavedOut)[e];
      }
    }
    if multiset(w.queue) == multiset(w.disk) {
      forall e
        ensures (w.lost + w.unsavedIn)[e] == (w.revived + w.unsavedOut)[e]
      {
        assert multiset(w.queue)[e] + w.unsavedOut[e] == multiset(w.disk)[e] + w.unsavedIn[e];
      }
    }
  }

  lemma BalancedStep(w: World, s: Step)
    requires Inv(w) && Balanced(w)
    ensures Balanced(Apply(w, s)) <==> KillsNothing(w, s)
  {
    InvStep(w, s);
    BalancedMeans(w);
    BalancedMeans(Apply(w, s));
    if s.Kill? { KillEvensOut(w); } else { OnlyKillsLose(w, s); }
  }

  /**
   Enqueued events are at all times queued, dropped or removed exactly when every kill finds the
   disk holding the events that memory holds.
   */
  lemma {:induction false} BalancedIffDiskCurrent(steps: seq<Step>)
    ensures AlwaysBalanced(steps) <==> KillsFindDiskCurrent(steps)
  {
    if steps != [] {
      var n := |steps| - 1;
      BalancedIffDiskCurrent(steps[..n]);
      Reachable(steps[..n]);
      if Balanced(Run(EMPTY, steps[..n])) { BalancedStep(Run(EMPTY, steps[..n]), steps[n]); }
    }
  }

  /** A kill before the write loses a finished enqueue. */
  lemma UnsavedEnqueueIsLost(w: World, e: Event)
    requires multiset(w.queue) == multiset(w.disk)
    ensures var w' := Apply(Apply(w, Enqueue(e)), Kill);
      w'.queue == w.disk && w'.enqueued[e] == w.enqueued[e] + 1
  {}

  /** A kill before the write brings a settled and removed event back, to be sent again. */
  lemma UnsavedRemovalComesBack(w: World)
    requires w.pc.Answered? && w.pc.i < |w.snapshot| && w.queue == w.disk && w.snapshot[w.pc.i] in w.queue
    ensures var e := w.snapshot[w.pc.i];
      var w' := Apply(Apply(w, Remove), Kill);
      w'.queue == w.queue && w'.removed[e] == w.removed[e] + 1
  {}

  lemma {:induction false} DrainSendsInSnapshotOrder(steps: seq<Step>)
    ensures InSnapshotOrder(Run(EMPTY, steps))
  {
    if steps != [] {
      var before := Run(EMPTY, steps[..|steps| - 1]);
      DrainSendsInSnapshotOrder(steps[..|steps| - 1]);
      OrderKept(before, steps[|steps| - 1]);
    }
  }

  lemma OrderKept(w: World, s: Step)
    requires InSnapshotOrder(w)
    ensures InSnapshotOrder(Apply(w, s))
  {
    if s.Attempt? { AttemptKeepsOrder(w, s.resolved, s.reply); }
  }

  lemma AttemptKeepsOrder(w: World, resolved: Option<string>, reply: Reply)
    requires InSnapshotOrder(w)
    ensures InSnapshotOrder(Apply(w, Attempt(resolved, reply)))
  {
    var w' := Apply(w, Attempt(resolved, reply));
    if w'.sent != w.sent {
      assert w'.sent == w.sent + [w.pc.i];
      assert forall a | 0 <= a < |w.sent| :: w'.sent[a] == w.sent[a] < w.pc.i;
    }
  }

  /** A settled entry that is still queued leaves the queue with the drain's next step. */
  lemma SettledEntryIsRemoved(w: World)
    requires w.pc.Answered? && w.pc.i < |w.snapshot|
    ensures var e := w.snapshot[w.pc.i];
      var q' := Apply(w, Remove).queue;
      && multiset(q')[e] == (if e in w.queue then multiset(w.queue)[e] - 1 else 0)
      && forall x | x != e :: multiset(q')[x] == multiset(w.queue)[x]
  {
    var e := w.snapshot[w.pc.i];
    RemoveFirstCounts(w.queue, e);
    var moved := if e in w.queue then multiset{e} else multiset{};
    assert forall x :: (multiset(RemoveFirst(w.queue, e)) + moved)[x] == multiset(w.queue)[x];
  }

  // ---------------------------------------------------------------- what may take an event off the queue

  /** The server has had the last word: any status but 429 and the 5xx. */
  predicate IsFinal(r: Reply) { r.Response? && r.code < 500 && r.code != 429 }

  predicate HasNumber(e: Event, resolved: Option<string>) { !IsBlank(e.number) || (resolved.Some? && !IsBlank(resolved.value)) }

  /** The step sends this value and gets a final reply. */
  predicate FinallyAnswers(w: World, s: Step, e: Event) {
    && s.Attempt? && w.pc.AtEntry? && w.pc.i < |w.snapshot| && w.snapshot[w.pc.i] == e
    && HasNumber(e, s.resolved) && IsFinal(s.reply)
  }

  /** How often the run has sent this value with a final reply. */
  ghost function FinalAnswers(steps: seq<Step>, e: Event): nat {
    if steps == [] then 0
    else
      var n := |steps| - 1;
      FinalAnswers(steps[..n], e) + if FinallyAnswers(Run(EMPTY, steps[..n]), steps[n], e) then 1 else 0
  }

  lemma FinalMeans(w: World, s: Step, e: Event)
    ensures Apply(w, s).settled[e] == w.settled[e] + if FinallyAnswers(w, s, e) then 1 else 0
  {}

  lemma {:induction false} SettledAreFinal(steps: seq<Step>, e: Event)
    ensures Run(EMPTY, steps).settled[e] == FinalAnswers(steps, e)
  {
    if steps != [] {
      var n := |steps| - 1;
      SettledAreFinal(steps[..n], e);
      FinalMeans(Run(EMPTY, steps[..n]), steps[n], e);
    }
  }

  /** However drains and kills interleave, a value is removed at most as often as it was sent with a final reply. */
  lemma RemovedOnlyAfterFinalReply(steps: seq<Step>, e: Event)
    ensures Run(EMPTY, steps).removed[e] <= FinalAnswers(steps, e)
  {
    BufferConservesEvents(steps);
    SettledAreFinal(steps, e);
  }

  /** Any other reply leaves the queue alone and ends the drain; a final one leads to the removal. */
  lemma OtherRepliesKeepTheQueue(w: World, resolved: Option<string>, reply: Reply)
    requires w.pc.AtEntry? && w.pc.i < |w.snapshot| && HasNumber(w.snapshot[w.pc.i], resolved)
    ensures var w' := Apply(w, Attempt(resolved, reply));
      w'.queue == w.queue && w'.disk == w.disk && w'.pc == if IsFinal(reply) then Answered(w.pc.i) else Idle
  {}

  /** What is sent names a number: the event's own, or the provisioned one in its place, and is the event otherwise. */
  lemma SentAsBuffered(queued: Event, resolved: Option<string>)
    ensures Filled(queued, resolved).Some? <==> HasNumber(queued, resolved)
    ensures Filled(queued, resolved).Some? ==>
      var e := Filled(queued, resolved).value;
      && !IsBlank(e.number) && e == queued.(number := e.number)
      && e.number == if IsBlank(queued.number) then resolved.value else queued.number
  {}

  // ---------------------------------------------------------------- the queue object and the drain

  class InboundQueue {
    var events: seq<Event>

    constructor ()
      ensures events == []
    {
      events := [];
    }

    method Enqueue(e: Event)
      modifies this
      ensures events == Trimmed(old(events) + [e])
    {
      var list := events + [e];
      ghost var full := list;
      while |list| > MAX_ENTRIES
        invariant |list| <= |full| && list == full[|full| - |list|..]
        invariant |list| >= MAX_ENTRIES || list == full
      {
        list := list[1..];
      }
      events := list;
    }

    method PeekAll() returns (list: seq<Event>)
      ensures list == events
    {
      list := events;
    }

    /** Removes the first event equal to e, if there is one. */
    method Remove(e: Event)
      modifies this
      ensures events == RemoveFirst(old(events), e)
    {
      var idx := 0;
      while idx < |events| && events[idx] != e
        invariant idx <= |events| && events == old(events)
        invariant forall k | 0 <= k < idx :: events[k] != e
      {
        idx := idx + 1;
      }
      RemoveFirstAt(events, e, idx);
      if idx < |events| {
        events := events[..idx] + events[idx + 1..];
      }
    }
  }

  lemma {:induction false} RemoveFirstAt(q: seq<Event>, e: Event, idx: nat)
    requires idx <= |q| && (forall k | 0 <= k < idx :: q[k] != e) && (idx < |q| ==> q[idx] == e)
    ensures RemoveFirst(q, e) == if idx < |q| then q[..idx] + q[idx + 1..] else q
  {
    if idx > 0 {
      var rest := q[1..];
      assert forall k | 0 <= k < idx - 1 :: rest[k] == q[k + 1];
      RemoveFirstAt(rest, e, idx - 1);
      if idx < |q| { CutInTail(q, idx); }
    }
  }

  lemma CutInTail(q: seq<Event>, idx: nat)
    requires 0 < idx < |q|
    ensures q[..idx] + q[idx + 1..] == [q[0]] + (q[1..][..idx - 1] + q[1..][idx..])
  {
    assert q[..idx] == [q[0]] + q[1..][..idx - 1];
    assert q[idx + 1..] == q[1..][idx..];
  }

  function Enqueues(es: seq<Event>): (steps: seq<Step>)
    ensures |steps| == |es|
  {
    seq(|es|, i requires 0 <= i < |es| => Enqueue(es[i]))
  }

  lemma {:induction false} RunConcat(w: World, a: seq<Step>, b: seq<Step>)
    ensures Run(w, a + b) == Run(Run(w, a), b)
  {
    if b == [] {
      assert a + b == a;
    } else {
      assert (a + b)[..|a + b| - 1] == a + b[..|b| - 1];
      RunConcat(w, a, b[..|b| - 1]);
    }
  }

  /** What the listeners buffer while the drain is elsewhere. */
  method Listen(q: InboundQueue, es: seq<Event>, ghost w: World) returns (ghost w': World)
    requires w.queue == q.events
    modifies q
    ensures w' == Run(w, Enqueues(es)) && w'.queue == q.events
    ensures w'.pc == w.pc && w'.snapshot == w.snapshot
  {
    w' := w;
    for i := 0 to |es|
      invariant w' == Run(w, Enqueues(es[..i])) && w'.queue == q.events
      invariant w'.pc == w.pc && w'.snapshot == w.snapshot
    {
      assert Enqueues(es[..i + 1])[..i] == Enqueues(es[..i]);
      q.Enqueue(es[i]);
      w' := Apply(w', Enqueue(es[i]));
    }
    assert es[..|es|] == es;
  }


  // ---------------------------------------------------------------- what a drain does

  predicate Stops(queued: Event, resolved: Option<string>, reply: Reply) {
    Filled(queued, resolved).Some? && !Settles(reply)
  }

  /** One entry: listeners, the attempt and, if the server settled it, listeners and the removal. */
  function EntrySteps(queued: Event, resolved: Option<string>, reply: Reply, before: seq<Event>, during: seq<Event>): seq<Step> {
    Enqueues(before) + [Attempt(resolved, reply)]
    + if Filled(queued, resolved).Some? && Settles(reply) then Enqueues(during) + [Step.Remove] else []
  }

  /** What surrounds a drain: the provisioned number and the reply at each entry, and the listeners' events. */
  datatype Surroundings = Surroundings(
    resolve: nat -> Option<string>, answer: nat -> Reply, before: nat -> seq<Event>, during: nat -> seq<Event>)

  /** The first n entries of the snapshot, up to and including one that stops the drain. */
  function DrainSteps(snapshot: seq<Event>, around: Surroundings, n: nat): seq<Step>
    requires n <= |snapshot|
  {
    if n == 0 then [BeginDrain]
    else if StopsBefore(snapshot, around, n - 1) then DrainSteps(snapshot, around, n - 1)
    else
      var i := n - 1;
      DrainSteps(snapshot, around, i)
      + EntrySteps(snapshot[i], around.resolve(i), around.answer(i), around.before(i), around.during(i))
  }

  /** One of the first n entries stops the drain. */
  predicate StopsBefore(snapshot: seq<Event>, around: Surroundings, n: nat)
    requires n <= |snapshot|
  {
    exists i | 0 <= i < n :: Stops(snapshot[i], around.resolve(i), around.answer(i))
  }

  lemma RunThen(w: World, steps: seq<Step>, s: Step)
    ensures Run(w, steps + [s]) == Apply(Run(w, steps), s)
  {
    assert (steps + [s])[..|steps|] == steps;
  }

  function Settled(queued: Event, resolved: Option<string>, reply: Reply): bool {
    Filled(queued, resolved).Some? && Settles(reply)
  }

  /** An entry's steps, one group after the other. */
  lemma EntryRun(w: World, queued: Event, resolved: Option<string>, reply: Reply, before: seq<Event>, during: seq<Event>)
    ensures var a := Apply(Run(w, Enqueues(before)), Attempt(resolved, reply));
      Run(w, EntrySteps(queued, resolved, reply, before, during))
      == if Settled(queued, resolved, reply) then Apply(Run(a, Enqueues(during)), Step.Remove) else a
  {
    RunThen(w, Enqueues(before), Attempt(resolved, reply));
    if Settled(queued, resolved, reply) {
      FourGroups(w, Enqueues(before), Attempt(resolved, reply), Enqueues(during), Step.Remove);
    } else {
      assert EntrySteps(queued, resolved, reply, before, during) == Enqueues(before) + [Attempt(resolved, reply)];
    }
  }

  lemma FourGroups(w: World, a: seq<Step>, b: Step, c: seq<Step>, d: Step)
    ensures Run(w, a + [b] + (c + [d])) == Apply(Run(Apply(Run(w, a), b), c), d)
  {
    var ab := a + [b];
    var abc := ab + c;
    assert ab + (c + [d]) == abc + [d];
    assert Run(w, ab) == Apply(Run(w, a), b) by { RunThen(w, a, b); }
    assert Run(w, abc) == Run(Run(w, ab), c) by { RunConcat(w, ab, c); }
    assert Run(w, abc + [d]) == Apply(Run(w, abc), d) by { RunThen(w, abc, d); }
  }

  lemma NextEntry(w: World, snapshot: seq<Event>, around: Surroundings, i: nat)
    requires i < |snapshot| && !StopsBefore(snapshot, around, i)
    ensures Run(w, DrainSteps(snapshot, around, i + 1))
         == Run(Run(w, DrainSteps(snapshot, around, i)),
                EntrySteps(snapshot[i], around.resolve(i), around.answer(i), around.before(i), around.during(i)))
  {
    RunConcat(w, DrainSteps(snapshot, around, i),
              EntrySteps(snapshot[i], around.resolve(i), around.answer(i), around.before(i), around.during(i)));
  }

  lemma FirstStep(w: World, snapshot: seq<Event>, around: Surroundings)
    ensures Run(w, DrainSteps(snapshot, around, 0)) == Apply(w, BeginDrain)
  {
    RunThen(w, [], BeginDrain);
    assert [] + [BeginDrain] == [BeginDrain];
  }

  lemma AttemptEffect(w: World, resolved: Option<string>, reply: Reply)
    requires w.pc.AtEntry? && w.pc.i < |w.snapshot|
    ensures var queued, w' := w.snapshot[w.pc.i], Apply(w, Attempt(resolved, reply));
      && w'.queue == w.queue && w'.snapshot == w.snapshot
      && w'.pc == if Settled(queued, resolved, reply) then Answered(w.pc.i)
                  else if Stops(queued, resolved, reply) then Idle
                  else AtOrDone(w.pc.i + 1, w.snapshot)
  {}

  lemma RemoveEffect(w: World, i: nat)
    requires w.pc == Answered(i) && i < |w.snapshot|
    ensures var w' := Apply(w, Step.Remove);
      && w'.queue == RemoveFirst(w.queue, w.snapshot[i]) && w'.snapshot == w.snapshot && w'.pc == AtOrDone(i + 1, w.snapshot)
  {}

  /** Listeners, then the settled entry's removal. */
  method RemoveSettled(q: InboundQueue, queued: Event, ghost i: nat, during: seq<Event>, ghost w: World) returns (ghost w': World)
    requires w.queue == q.events && w.pc == Answered(i) && i < |w.snapshot| && queued == w.snapshot[i]
    modifies q
    ensures w' == Apply(Run(w, Enqueues(during)), Step.Remove)
    ensures w'.queue == q.events && w'.snapshot == w.snapshot && w'.pc == AtOrDone(i + 1, w.snapshot)
  {
    w' := Listen(q, during, w);
    RemoveEffect(w', i);
    q.Remove(queued);
    w' := Apply(w', Step.Remove);
  }

  /** One pass of the drain loop over entry i of the snapshot; stop ends the drain. */
  method DrainEntry(q: InboundQueue, queued: Event, ghost i: nat, resolved: Option<string>, reply: Reply,
                    before: seq<Event>, during: seq<Event>, ghost w: World)
    returns (stop: bool, ghost w': World)
    requires w.queue == q.events && w.pc == AtEntry(i) && i < |w.snapshot| && queued == w.snapshot[i]
    modifies q
    ensures stop == Stops(queued, resolved, reply)
    ensures w' == Run(w, EntrySteps(queued, resolved, reply, before, during))
    ensures w'.queue == q.events && w'.snapshot == w.snapshot
    ensures w'.pc == if stop then Idle else AtOrDone(i + 1, w.snapshot)
  {
    EntryRun(w, queued, resolved, reply, before, during);
    ghost var now := Listen(q, before, w);
    AttemptEffect(now, resolved, reply);
    now := Apply(now, Attempt(resolved, reply));
    var event := Filled(queued, resolved);
    if event.None? { return false, now; }
    if !Settles(reply) { return true, now; }
    w' := RemoveSettled(q, queued, i, during, now);
    stop := false;
  }

  /** The drain has come to entry i without stopping. */
  ghost predicate DrainedTo(w: World, snapshot: seq<Event>, around: Surroundings, i: nat, now: World) {
    && i <= |snapshot| && !StopsBefore(snapshot, around, i)
    && now == Run(w, DrainSteps(snapshot, around, i))
    && now.snapshot == snapshot && now.pc == AtOrDone(i, snapshot)
  }

  /** The drain is over. */
  ghost predicate Drained(w: World, snapshot: seq<Event>, around: Surroundings, now: World) {
    now == Run(w, DrainSteps(snapshot, around, |snapshot|)) && now.pc.Idle?
  }

  /** The loop's body. */
  method DrainNext(q: InboundQueue, pending: seq<Event>, i: nat, around: Surroundings, ghost w: World, ghost now: World)
    returns (stop: bool, ghost now': World)
    requires DrainedTo(w, pending, around, i, now) && i < |pending| && now.queue == q.events
    modifies q
    ensures now'.queue == q.events
    ensures if stop then Drained(w, pending, around, now') else DrainedTo(w, pending, around, i + 1, now')
  {
    NextEntry(w, pending, around, i);
    stop, now' := DrainEntry(q, pending[i], i, around.resolve(i), around.answer(i), around.before(i), around.during(i), now);
    StopsOrGoesOn(pending, around, i);
  }

  /**
   retryQueued: its whole effect, with listeners enqueueing before each send and before each
   removal, is the run of its drain's steps over the snapshot it took, which ends idle.
   */
  method RetryQueued(q: InboundQueue, around: Surroundings, ghost w: World) returns (ghost now: World)
    requires w.queue == q.events && w.pc.Idle?
    modifies q
    ensures now == Run(w, DrainSteps(old(q.events), around, |old(q.events)|)) && now.pc.Idle? && now.queue == q.events
  {
    var pending := q.PeekAll();
    FirstStep(w, pending, around);
    var i := 0;
    now := Apply(w, BeginDrain);
    while i < |pending|
      invariant DrainedTo(w, pending, around, i, now) && now.queue == q.events
    {
      var stop;
      stop, now := DrainNext(q, pending, i, around, w, now);
      if stop { return; }
      i := i + 1;
    }
  }

  lemma StillStopped(snapshot: seq<Event>, around: Surroundings, n: nat, m: nat)
    requires n <= m <= |snapshot| && StopsBefore(snapshot, around, n)
    ensures StopsBefore(snapshot, around, m)
  {}

  lemma NoMoreSteps(snapshot: seq<Event>, around: Surroundings, m: nat)
    requires 0 < m <= |snapshot| && StopsBefore(snapshot, around, m - 1)
    ensures DrainSteps(snapshot, around, m) == DrainSteps(snapshot, around, m - 1)
  {}

  /** Once an entry has stopped the drain, later entries add nothing. */
  lemma {:induction false} StoppedDrain(snapshot: seq<Event>, around: Surroundings, n: nat, m: nat)
    requires n <= m <= |snapshot| && StopsBefore(snapshot, around, n)
    ensures DrainSteps(snapshot, around, m) == DrainSteps(snapshot, around, n)
  {
    if n < m {
      StillStopped(snapshot, around, n, m - 1);
      StoppedDrain(snapshot, around, n, m - 1);
      NoMoreSteps(snapshot, around, m);
    }
  }

  lemma StopsOrGoesOn(snapshot: seq<Event>, around: Surroundings, i: nat)
    requires i < |snapshot| && !StopsBefore(snapshot, around, i)
    ensures if Stops(snapshot[i], around.resolve(i), around.answer(i))
            then DrainSteps(snapshot, around, |snapshot|) == DrainSteps(snapshot, around, i + 1)
            else !StopsBefore(snapshot, around, i + 1)
  {
    if Stops(snapshot[i], around.resolve(i), around.answer(i)) {
      assert StopsBefore(snapshot, around, i + 1);
      StoppedDrain(snapshot, around, i + 1, |snapshot|);
    }
  }

  /** No listener interrupts, and every entry is filled in and settled. */
  ghost predicate AllSettle(snapshot: seq<Event>, around: Surroundings) {
    forall i | 0 <= i < |snapshot| ::
      around.before(i) == [] && around.during(i) == [] && Settled(snapshot[i], around.resolve(i), around.answer(i))
  }

  /** Such a drain empties the queue, entry by entry from its head. */
  lemma SettledDrainEmptiesQueue(w: World, around: Surroundings)
    requires w.pc.Idle? && AllSettle(w.queue, around)
    ensures Run(w, DrainSteps(w.queue, around, |w.queue|)).queue == []
  {
    var now := SettledDrain(w, around, |w.queue|);
  }

  lemma {:induction false} SettledDrain(w: World, around: Surroundings, n: nat) returns (now: World)
    requires w.pc.Idle? && n <= |w.queue| && AllSettle(w.queue, around)
    ensures DrainedTo(w, w.queue, around, n, now) && now.queue == w.queue[n..]
  {
    if n == 0 {
      FirstStep(w, w.queue, around);
      now := Apply(w, BeginDrain);
    } else {
      now := SettledDrain(w, around, n - 1);
      now := SettledPass(w, w.queue, around, n - 1, now);
    }
  }

  lemma SettledPass(w: World, snapshot: seq<Event>, around: Surroundings, i: nat, now: World) returns (now': World)
    requires DrainedTo(w, snapshot, around, i, now) && i < |snapshot| && now.queue == snapshot[i..] && AllSettle(snapshot, around)
    ensures DrainedTo(w, snapshot, around, i + 1, now') && now'.queue == snapshot[i + 1..]
  {
    NextEntry(w, snapshot, around, i);
    SettledEntryShifts(now, i, around.resolve(i), around.answer(i));
    StopsOrGoesOn(snapshot, around, i);
    now' := Run(now, EntrySteps(snapshot[i], around.resolve(i), around.answer(i), around.before(i), around.during(i)));
  }

  lemma SettledEntryShifts(w: World, i: nat, resolved: Option<string>, reply: Reply)
    requires i < |w.snapshot| && w.pc == AtEntry(i) && w.queue == w.snapshot[i..] && Settled(w.snapshot[i], resolved, reply)
    ensures var w' := Run(w, EntrySteps(w.snapshot[i], resolved, reply, [], []));
      w'.queue == w.snapshot[i + 1..] && w'.pc == AtOrDone(i + 1, w.snapshot) && w'.snapshot == w.snapshot
  {
    EntryRun(w, w.snapshot[i], resolved, reply, [], []);
    AttemptEffect(w, resolved, reply);
    var a := Apply(w, Attempt(resolved, reply));
    assert Enqueues([]) == [] && Run(w, []) == w && Run(a, []) == a;
    assert RemoveFirst(w.queue, w.snapshot[i]) == w.snapshot[i + 1..];
  }
}
