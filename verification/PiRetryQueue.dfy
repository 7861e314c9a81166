/**
 The Raspberry Pi receiver's retry buffer (receiver-pi/calltoverify_pi/retry.py): a
 JSON-lines file that `add` and `flush` read, change and atomically replace.

 One process owns the file. A run is a sequence of completed calls and of calls cut short
 by a crash before the atomic replace. Items are followed by their position in the order
 they were added, so equal items stay distinguishable.
 */
module PiRetryQueue {
  import opened Wrappers

  /** What a line of the file parses to; anything but a record is skipped by a read. */
  datatype Line<T> = Record(item: T) | Blank | Corrupt

  function Items<T>(lines: seq<Line<T>>): seq<T> {
    if lines == [] then []
    else (if lines[0].Record? then [lines[0].item] else []) + Items(lines[1..])
  }

  /** How one send ended; a failure carries the exception's status, if it is an integer. */
  datatype Reply = Delivery | Failure(status: Option<int>)

  predicate IsPermanent(r: Reply) {
    r.Failure? && r.status.Some? && 400 <= r.status.value < 500 && r.status.value != 429
  }

  /** Python's xs[k:], including its meaning for negative k. */
  function SliceFrom<T>(xs: seq<T>, k: int): seq<T> {
    if k >= 0 then (if k <= |xs| then xs[k..] else [])
    else if -k <= |xs| then xs[|xs| + k..]
    else xs
  }

  function Added<T>(maxItems: int, items: seq<T>, item: T): seq<T> {
    var xs := items + [item];
    if |xs| > maxItems then SliceFrom(xs, -maxItems) else xs
  }

  datatype Fate = Delivered | Rejected | Overflowed

  /** The fates a flush of n items decides, from item i until the first transient failure. */
  function FlushFates(n: nat, i: nat, replies: nat -> Reply): (fates: seq<Fate>)
    requires i <= n
    ensures |fates| <= n - i
    decreases n - i
  {
    if i == n then []
    else if replies(i).Delivery? then [Delivered] + FlushFates(n, i + 1, replies)
    else if IsPermanent(replies(i)) then [Rejected] + FlushFates(n, i + 1, replies)
    else []
  }

  // ---------------------------------------------------------------- runs

  datatype Op<T> =
    | Add(item: T)
    | Flush(replies: nat -> Reply)
    | CrashInAdd(item: T)
    | CrashInFlush(replies: nat -> Reply, attempts: nat)

  predicate IsCrash<T>(op: Op<T>) { op.CrashInAdd? || op.CrashInFlush? }

  /**
   queue is the file. added, fates and sent are the history: every item whose add completed,
   the fates of those no longer queued, and the positions of all successful sends in order.
   */
  datatype World<T> = World(queue: seq<T>, added: seq<T>, fates: seq<Fate>, sent: seq<nat>)

  function Overflow(n: nat): seq<Fate> { seq(n, _ => Overflowed) }

  /** Positions, offset by base, of the deliveries among some fates. */
  function Deliveries(fates: seq<Fate>, base: nat): seq<nat> {
    if fates == [] then []
    else
      var n := |fates| - 1;
      Deliveries(fates[..n], base) + if fates[n].Delivered? then [base + n] else []
  }

  function Step<T>(maxItems: int, w: World<T>, op: Op<T>): World<T> {
    match op
    case Add(item) =>
      var q := Added(maxItems, w.queue, item);
      var lost := |w.queue| + 1 - |q|;
      World(q, w.added + [item], w.fates + Overflow(if lost > 0 then lost else 0), w.sent)
    case Flush(replies) =>
      var fates := FlushFates(|w.queue|, 0, replies);
      World(w.queue[|fates|..], w.added, w.fates + fates, w.sent + Deliveries(fates, |w.fates|))
    case CrashInAdd(_) => w
    case CrashInFlush(replies, attempts) =>
      var fates := FlushFates(|w.queue|, 0, replies);
      var done := if attempts <= |fates| then fates[..attempts] else fates;
      w.(sent := w.sent + Deliveries(done, |w.fates|))
  }

  function Run<T>(maxItems: int, w: World<T>, ops: seq<Op<T>>): World<T> {
    if ops == [] then w else Step(maxItems, Run(maxItems, w, ops[..|ops| - 1]), ops[|ops| - 1])
  }

  /** A process starting on a file that already holds some items. */
  function Start<T>(initial: seq<T>): World<T> { World(initial, initial, [], []) }

  // ---------------------------------------------------------------- conservation

  /** The queue is what was added minus a decided prefix, and every delivered fate was really sent. */
  ghost predicate Accounted<T>(w: World<T>) {
    && |w.fates| <= |w.added|
    && w.queue == w.added[|w.fates|..]
    && (forall i | 0 <= i < |w.fates| && w.fates[i].Delivered? :: i in w.sent)
    && (forall i | i in w.sent :: i < |w.added|)
  }

  /** The positions of the deliveries, in any order. */
  ghost predicate AreDelivered(positions: seq<nat>, fates: seq<Fate>, base: nat) {
    forall i: nat :: i in positions <==> base <= i < base + |fates| && fates[i - base].Delivered?
  }

  lemma {:induction false} DeliveriesMeaning(fates: seq<Fate>, base: nat)
    ensures AreDelivered(Deliveries(fates, base), fates, base)
  {
    if fates != [] {
      DeliveriesMeaning(fates[..|fates| - 1], base);
    }
  }

  lemma AddKeepsSuffix<T>(maxItems: int, items: seq<T>, item: T)
    ensures var q := Added(maxItems, items, item);
      |q| <= |items| + 1 && q == (items + [item])[|items| + 1 - |q|..]
  {}

  lemma AccountedAdd<T>(maxItems: int, w: World<T>, item: T)
    requires Accounted(w)
    ensures Accounted(Step(maxItems, w, Add(item)))
  {
    var q := Added(maxItems, w.queue, item);
    AddKeepsSuffix(maxItems, w.queue, item);
    var added := w.added + [item];
    assert w.queue + [item] == added[|w.fates|..];
    assert q == added[|added| - |q|..];
  }

  lemma AccountedSends<T>(w: World<T>, fates: seq<Fate>)
    requires Accounted(w) && |fates| <= |w.queue|
    ensures var sent := w.sent + Deliveries(fates, |w.fates|);
      && Accounted(World(w.queue[|fates|..], w.added, w.fates + fates, sent))
      && Accounted(w.(sent := sent))
  {
    DeliveriesMeaning(fates, |w.fates|);
    SendsKeepAccounts(w, fates, Deliveries(fates, |w.fates|));
  }

  lemma SendsKeepAccounts<T>(w: World<T>, fates: seq<Fate>, more: seq<nat>)
    requires Accounted(w) && |fates| <= |w.queue| && AreDelivered(more, fates, |w.fates|)
    ensures Accounted(World(w.queue[|fates|..], w.added, w.fates + fates, w.sent + more))
    ensures Accounted(w.(sent := w.sent + more))
  {
    var all := w.fates + fates;
    forall i | 0 <= i < |all| && all[i].Delivered?
      ensures i in w.sent + more
    {
      assert i < |w.fates| || i in more;
    }
    assert w.queue[|fates|..] == w.added[|all|..];
  }

  lemma AccountedStep<T>(maxItems: int, w: World<T>, op: Op<T>)
    requires Accounted(w)
    ensures Accounted(Step(maxItems, w, op))
  {
    match op {
      case Add(item) => AccountedAdd(maxItems, w, item);
      case Flush(replies) =>
        var fates := FlushFates(|w.queue|, 0, replies);
        AccountedSends(w, fates);
      case CrashInAdd(_) =>
      case CrashInFlush(replies, attempts) =>
        var fates := FlushFates(|w.queue|, 0, replies);
        var done := if attempts <= |fates| then fates[..attempts] else fates;
        AccountedSends(w, done);
    }
  }

  /**
   Whatever crashes happen, an added item is either still queued, in order, or has exactly one
   fate; a Delivered fate means at least one successful send. Nothing else leaves the buffer.
   */
  lemma {:induction false} NothingElseIsLost<T>(maxItems: int, initial: seq<T>, ops: seq<Op<T>>)
    ensures Accounted(Run(maxItems, Start(initial), ops))
  {
    if ops != [] {
      NothingElseIsLost(maxItems, initial, ops[..|ops| - 1]);
      AccountedStep(maxItems, Run(maxItems, Start(initial), ops[..|ops| - 1]), ops[|ops| - 1]);
    }
  }

  ghost predicate StrictlyIncreasing(xs: seq<nat>) { forall i, j | 0 <= i < j < |xs| :: xs[i] < xs[j] }

  lemma {:induction false} DeliveriesConcat(a: seq<Fate>, b: seq<Fate>, base: nat)
    ensures Deliveries(a + b, base) == Deliveries(a, base) + Deliveries(b, base + |a|)
  {
    if b == [] {
      assert a + b == a;
    } else {
      assert (a + b)[..|a + b| - 1] == a + b[..|b| - 1];
      DeliveriesConcat(a, b[..|b| - 1], base);
    }
  }

  lemma {:induction false} DeliveriesIncrease(fates: seq<Fate>, base: nat)
    ensures StrictlyIncreasing(Deliveries(fates, base))
  {
    if fates != [] {
      var prefix := Deliveries(fates[..|fates| - 1], base);
      DeliveriesIncrease(fates[..|fates| - 1], base);
      DeliveriesMeaning(fates[..|fates| - 1], base);
      assert forall i | 0 <= i < |prefix| :: prefix[i] in prefix;
    }
  }

  lemma {:induction false} OverflowDeliversNothing(n: nat, base: nat)
    ensures Deliveries(Overflow(n), base) == []
  {
    if n > 0 {
      assert Overflow(n)[..n - 1] == Overflow(n - 1);
      OverflowDeliversNothing(n - 1, base);
    }
  }

  lemma SentFollowsFates<T>(maxItems: int, w: World<T>, op: Op<T>)
    requires w.sent == Deliveries(w.fates, 0) && !IsCrash(op)
    ensures Step(maxItems, w, op).sent == Deliveries(Step(maxItems, w, op).fates, 0)
  {
    if op.Add? {
      var lost := |w.queue| + 1 - |Added(maxItems, w.queue, op.item)|;
      AddKeepsSuffix(maxItems, w.queue, op.item);
      OverflowKeepsDeliveries(w.fates, lost);
    } else {
      DeliveriesConcat(w.fates, FlushFates(|w.queue|, 0, op.replies), 0);
    }
  }

  lemma OverflowKeepsDeliveries(fates: seq<Fate>, lost: nat)
    ensures Deliveries(fates + Overflow(lost), 0) == Deliveries(fates, 0)
  {
    DeliveriesConcat(fates, Overflow(lost), 0);
    OverflowDeliversNothing(lost, |fates|);
  }

  /**
   Without crashes the successful sends are exactly the items with fate Delivered, each once and
   in the order they were added.
   */
  lemma {:induction false} ExactlyOnceInOrder<T>(maxItems: int, initial: seq<T>, ops: seq<Op<T>>)
    requires forall i | 0 <= i < |ops| :: !IsCrash(ops[i])
    ensures var w := Run(maxItems, Start(initial), ops);
      w.sent == Deliveries(w.fates, 0) && StrictlyIncreasing(w.sent)
  {
    if ops != [] {
      ExactlyOnceInOrder(maxItems, initial, ops[..|ops| - 1]);
      SentFollowsFates(maxItems, Run(maxItems, Start(initial), ops[..|ops| - 1]), ops[|ops| - 1]);
    }
    DeliveriesIncrease(Run(maxItems, Start(initial), ops).fates, 0);
  }

  // ---------------------------------------------------------------- why an item leaves

  /** The server refused the item itself: a status from 400 to 499, except 429. */
  predicate Refused(r: Reply) { r.Failure? && r.status.Some? && 400 <= r.status.value <= 499 && r.status.value != 429 }

  /** A flush decides items by their own replies. */
  lemma {:induction false} FateAt(n: nat, i: nat, replies: nat -> Reply, k: nat)
    requires i <= n && k < |FlushFates(n, i, replies)|
    ensures replies(i + k).Delivery? || Refused(replies(i + k))
    ensures FlushFates(n, i, replies)[k] == if replies(i + k).Delivery? then Delivered else Rejected
    decreases k
  {
    if k > 0 { FateAt(n, i + 1, replies, k - 1); }
  }

  /** It stops at the first item that is neither delivered nor refused. */
  lemma {:induction false} StopsAt(n: nat, i: nat, replies: nat -> Reply, k: nat)
    requires i <= k <= n && forall j | i <= j < k :: replies(j).Delivery? || Refused(replies(j))
    requires k < n ==> !replies(k).Delivery? && !Refused(replies(k))
    ensures |FlushFates(n, i, replies)| == k - i
    decreases k - i
  {
    if i < k { StopsAt(n, i + 1, replies, k); }
  }

  /** A completed flush keeps the first item that is neither delivered nor refused, and all after it. */
  lemma FlushKeepsTheRest<T>(maxItems: int, w: World<T>, replies: nat -> Reply, i: nat)
    requires i <= |w.queue| && forall k | 0 <= k < i :: replies(k).Delivery? || Refused(replies(k))
    requires i < |w.queue| ==> !replies(i).Delivery? && !Refused(replies(i))
    ensures Step(maxItems, w, Flush(replies)).queue == w.queue[i..]
  {
    StopsAt(|w.queue|, 0, replies, i);
  }

  /** In step j a flush gets this reply for the item at position p. */
  ghost predicate AnsweredAt<T>(maxItems: int, initial: seq<T>, ops: seq<Op<T>>, j: nat, p: nat, delivered: bool) {
    && j < |ops| && ops[j].Flush?
    && var before := Run(maxItems, Start(initial), ops[..j]);
       && |before.fates| <= p < |before.added|
       && if delivered then ops[j].replies(p - |before.fates|).Delivery? else Refused(ops[j].replies(p - |before.fates|))
  }

  /** In step j an add pushes the item at position p out. */
  ghost predicate PushedOutAt<T>(maxItems: int, initial: seq<T>, ops: seq<Op<T>>, j: nat, p: nat) {
    && j < |ops| && ops[j].Add?
    && var before := Run(maxItems, Start(initial), ops[..j]);
       |before.fates| <= p && |before.queue| + 1 > maxItems
  }

  ghost predicate HasReason<T>(maxItems: int, initial: seq<T>, ops: seq<Op<T>>, p: nat, fate: Fate) {
    match fate
    case Delivered => exists j: nat :: AnsweredAt(maxItems, initial, ops, j, p, true)
    case Rejected => exists j: nat :: AnsweredAt(maxItems, initial, ops, j, p, false)
    case Overflowed => exists j: nat :: PushedOutAt(maxItems, initial, ops, j, p)
  }

  ghost predicate AllHaveReasons<T>(maxItems: int, initial: seq<T>, ops: seq<Op<T>>, fates: seq<Fate>) {
    forall p | 0 <= p < |fates| :: HasReason(maxItems, initial, ops, p, fates[p])
  }

  lemma ReasonLater<T>(maxItems: int, initial: seq<T>, ops: seq<Op<T>>, op: Op<T>, p: nat, fate: Fate)
    requires HasReason(maxItems, initial, ops, p, fate)
    ensures HasReason(maxItems, initial, ops + [op], p, fate)
  {
    assert forall j: nat | j < |ops| :: (ops + [op])[..j] == ops[..j];
    if fate.Overflowed? {
      var j: nat :| PushedOutAt(maxItems, initial, ops, j, p);
      assert PushedOutAt(maxItems, initial, ops + [op], j, p);
    } else {
      var j: nat :| AnsweredAt(maxItems, initial, ops, j, p, fate.Delivered?);
      assert AnsweredAt(maxItems, initial, ops + [op], j, p, fate.Delivered?);
    }
  }

  /** A fate that the last step decides has its reason in that step. */
  lemma NewReason<T>(maxItems: int, initial: seq<T>, ops: seq<Op<T>>, op: Op<T>, p: nat)
    requires var w := Run(maxItems, Start(initial), ops); Accounted(w) && |w.fates| <= p < |Step(maxItems, w, op).fates|
    ensures HasReason(maxItems, initial, ops + [op], p, Step(maxItems, Run(maxItems, Start(initial), ops), op).fates[p])
  {
    var w := Run(maxItems, Start(initial), ops);
    if op.Add? { PushIsReason(maxItems, initial, ops, op, w, p); } else { AnswerIsReason(maxItems, initial, ops, op, w, p); }
  }

  lemma PushIsReason<T>(maxItems: int, initial: seq<T>, ops: seq<Op<T>>, op: Op<T>, w: World<T>, p: nat)
    requires w == Run(maxItems, Start(initial), ops) && op.Add? && |w.fates| <= p < |Step(maxItems, w, op).fates|
    ensures HasReason(maxItems, initial, ops + [op], p, Step(maxItems, w, op).fates[p])
  {
    var now := ops + [op];
    assert now[..|ops|] == ops && now[|ops|] == op;
    assert PushedOutAt(maxItems, initial, now, |ops|, p);
  }

  lemma AnswerIsReason<T>(maxItems: int, initial: seq<T>, ops: seq<Op<T>>, op: Op<T>, w: World<T>, p: nat)
    requires w == Run(maxItems, Start(initial), ops) && Accounted(w) && !op.Add? && |w.fates| <= p < |Step(maxItems, w, op).fates|
    ensures HasReason(maxItems, initial, ops + [op], p, Step(maxItems, w, op).fates[p])
  {
    NewAnswer(maxItems, w, op, p);
    AnsweredNow(maxItems, initial, ops, op, w, p, op.replies(p - |w.fates|).Delivery?);
  }

  lemma AnsweredNow<T>(maxItems: int, initial: seq<T>, ops: seq<Op<T>>, op: Op<T>, w: World<T>, p: nat, delivered: bool)
    requires w == Run(maxItems, Start(initial), ops) && op.Flush? && |w.fates| <= p < |w.added|
    requires var reply := op.replies(p - |w.fates|); if delivered then reply.Delivery? else Refused(reply)
    ensures AnsweredAt(maxItems, initial, ops + [op], |ops|, p, delivered)
  {
    var now := ops + [op];
    assert now[..|ops|] == ops && now[|ops|] == op;
  }

  lemma NewAnswer<T>(maxItems: int, w: World<T>, op: Op<T>, p: nat)
    requires Accounted(w) && !op.Add? && |w.fates| <= p < |Step(maxItems, w, op).fates|
    ensures op.Flush? && p < |w.added|
    ensures var reply := op.replies(p - |w.fates|);
      && (reply.Delivery? || Refused(reply))
      && Step(maxItems, w, op).fates[p] == if reply.Delivery? then Delivered else Rejected
  {
    FateAt(|w.queue|, 0, op.replies, p - |w.fates|);
  }

  /**
   Whatever crashes happen, an item has left the buffer only because a flush delivered it, because
   the server refused the item itself, or because an add to a full buffer pushed it out.
   */
  lemma {:induction false} ItemsLeaveForAReason<T>(maxItems: int, initial: seq<T>, ops: seq<Op<T>>)
    ensures AllHaveReasons(maxItems, initial, ops, Run(maxItems, Start(initial), ops).fates)
  {
    if ops != [] {
      var before, op := ops[..|ops| - 1], ops[|ops| - 1];
      assert before + [op] == ops;
      var w, fates := Run(maxItems, Start(initial), before), Run(maxItems, Start(initial), ops).fates;
      ItemsLeaveForAReason(maxItems, initial, before);
      NothingElseIsLost(maxItems, initial, before);
      assert fates == Step(maxItems, w, op).fates && w.fates <= fates;
      forall p | 0 <= p < |fates|
        ensures HasReason(maxItems, initial, ops, p, fates[p])
      {
        if p < |w.fates| { ReasonLater(maxItems, initial, before, op, p, w.fates[p]); }
        else { NewReason(maxItems, initial, before, op, p); }
      }
    }
  }

  // ---------------------------------------------------------------- the bound

  lemma StepBound<T>(maxItems: int, w: World<T>, op: Op<T>)
    requires maxItems >= 1
    ensures var n := |Step(maxItems, w, op).queue|; n <= maxItems || (n <= |w.queue| && !op.Add?)
  {}

  predicate HasAdd<T>(ops: seq<Op<T>>) { exists i | 0 <= i < |ops| :: ops[i].Add? }

  /** Whatever the file held at first, one completed add brings it within the bound, for good. */
  lemma {:induction false} BoundFromAnyFile<T>(maxItems: int, initial: seq<T>, ops: seq<Op<T>>)
    requires maxItems >= 1
    ensures var n := |Run(maxItems, Start(initial), ops).queue|; n <= maxItems || (n <= |initial| && !HasAdd(ops))
  {
    if ops != [] {
      var n := |ops| - 1;
      BoundFromAnyFile(maxItems, initial, ops[..n]);
      StepBound(maxItems, Run(maxItems, Start(initial), ops[..n]), ops[n]);
      assert !ops[n].Add? && !HasAdd(ops[..n]) ==> !HasAdd(ops) by {
        assert forall i | 0 <= i < n :: ops[..n][i] == ops[i];
      }
    }
  }

  ghost predicate StaysBounded(maxItems: int) {
    forall ops: seq<Op<int>> :: |Run(maxItems, Start([]), ops).queue| <= maxItems
  }

  /**
   The buffer stays within max_items precisely when max_items is at least one. With zero the
   trim `items[-0:]` keeps everything, so the buffer grows with every add.
   */
  lemma BoundedIffPositive(maxItems: int)
    ensures StaysBounded(maxItems) <==> maxItems >= 1
  {
    if maxItems >= 1 {
      forall ops: seq<Op<int>>
        ensures |Run(maxItems, Start([]), ops).queue| <= maxItems
      {
        BoundFromAnyFile(maxItems, [], ops);
      }
    } else if maxItems < 0 {
      assert |Run(maxItems, Start<int>([]), []).queue| == 0;
    } else {
      ZeroGrows(1);
    }
  }

  function Zeros(n: nat): seq<Op<int>> { seq(n, _ => Add(0)) }

  /** With max_items zero, n adds leave n items. */
  lemma {:induction false} ZeroGrows(n: nat)
    ensures |Run(0, Start([]), Zeros(n)).queue| == n
  {
    if n > 0 {
      assert Zeros(n)[..n - 1] == Zeros(n - 1);
      ZeroGrows(n - 1);
    }
  }

  // ---------------------------------------------------------------- the buffer object

  /** A flush of n items has come to item i; fates are those it will decide in all. */
  ghost predicate FlushedTo(n: nat, i: nat, replies: nat -> Reply, fates: seq<Fate>, sent: nat) {
    i <= n && i <= |fates| && fates[i..] == FlushFates(n, i, replies) && sent == |Deliveries(fates[..i], 0)|
  }

  /** What the i-th reply adds to the fates. */
  lemma NextFate(n: nat, i: nat, replies: nat -> Reply, fates: seq<Fate>, sent: nat)
    requires i < n && FlushedTo(n, i, replies, fates, sent)
    ensures if replies(i).Delivery? then FlushedTo(n, i + 1, replies, fates, sent + 1)
            else if IsPermanent(replies(i)) then FlushedTo(n, i + 1, replies, fates, sent)
            else |fates| == i && sent == |Deliveries(fates, 0)|
  {
    if i < |fates| {
      assert fates[i] == fates[i..][0];
      assert fates[i + 1..] == fates[i..][1..];
      assert fates[..i + 1][..i] == fates[..i];
    } else {
      assert fates[..i] == fates;
    }
  }

  lemma AllFlushed(n: nat, replies: nat -> Reply, fates: seq<Fate>, sent: nat)
    requires FlushedTo(n, n, replies, fates, sent)
    ensures |fates| == n && sent == |Deliveries(fates, 0)|
  {
    assert fates[..n] == fates;
  }

  /** file is None until the first write; tmp is the file being prepared. */
  class RetryQueue<T> {
    const maxItems: int
    var file: Option<seq<Line<T>>>
    var tmp: seq<Line<T>>

    ghost function Contents(): seq<T>
      reads this
    {
      if file.None? then [] else Items(file.value)
    }

    constructor (maxItems: int, file: Option<seq<Line<T>>>)
      ensures this.maxItems == maxItems && this.file == file
    {
      this.maxItems := maxItems;
      this.file := file;
      this.tmp := [];
    }

    method Read() returns (items: seq<T>)
      ensures items == Contents()
    {
      if file.None? {
        return [];
      }
      items := [];
      var lines := file.value;
      for i := 0 to |lines|
        invariant Items(lines) == items + Items(lines[i..])
      {
        if lines[i].Record? {
          items := items + [lines[i].item];
        }
      }
    }

    method Write(items: seq<T>)
      modifies this
      ensures Contents() == items
    {
      tmp := [];
      for i := 0 to |items|
        invariant Items(tmp) == items[..i]
        invariant file == old(file)
      {
        ItemsConcat(tmp, [Record(items[i])]);
        tmp := tmp + [Record(items[i])];
      }
      file := Some(tmp);
    }

    method AddItem(item: T)
      modifies this
      ensures Contents() == Added(maxItems, old(Contents()), item)
    {
      var items := Read();
      items := items + [item];
      if |items| > maxItems {
        items := SliceFrom(items, -maxItems);
      }
      Write(items);
    }

    /** replies(i) is how sending the i-th buffered item ends; offered lists the items passed to send. */
    method FlushAll(replies: nat -> Reply) returns (sent: nat, offered: seq<T>)
      modifies this
      ensures var items, fates := old(Contents()), FlushFates(|old(Contents())|, 0, replies);
        && Contents() == items[|fates|..]
        && sent == |Deliveries(fates, 0)|
        && offered == if |fates| == |items| then items else items[..|fates| + 1]
    {
      var items := Read();
      var kept;
      sent, offered, kept := SendAll(items, replies);
      Write(items[kept..]);
    }

    /** The loop over the items; it ends at the first one to keep. */
    method SendAll(items: seq<T>, replies: nat -> Reply) returns (sent: nat, offered: seq<T>, kept: nat)
      ensures var fates := FlushFates(|items|, 0, replies);
        && kept == |fates| && sent == |Deliveries(fates, 0)|
        && offered == if kept == |items| then items else items[..kept + 1]
    {
      ghost var fates := FlushFates(|items|, 0, replies);
      sent, offered := 0, [];
      for i := 0 to |items|
        invariant offered == items[..i] && FlushedTo(|items|, i, replies, fates, sent)
      {
        NextFate(|items|, i, replies, fates, sent);
        var reply := replies(i);
        offered := offered + [items[i]];
        if reply.Delivery? {
          sent := sent + 1;
        } else if !IsPermanent(reply) {
          return sent, offered, i;
        }
      }
      AllFlushed(|items|, replies, fates, sent);
      kept := |items|;
    }
  }

  lemma {:induction false} ItemsConcat<T>(a: seq<Line<T>>, b: seq<Line<T>>)
    ensures Items(a + b) == Items(a) + Items(b)
  {
    if a == [] {
      assert a + b == b;
    } else {
      var first := if a[0].Record? then [a[0].item] else [];
      assert (a + b)[1..] == a[1..] + b;
      ItemsConcat(a[1..], b);
      assert first + (Items(a[1..]) + Items(b)) == first + Items(a[1..]) + Items(b);
    }
  }
}
