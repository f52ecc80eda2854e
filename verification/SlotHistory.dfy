/** What happens to every request and every piece event, over all orders in which threads
    can reach the locks. */
module SlotHistory {
  import opened Outcomes
  import opened PendingWork

  // ---------------------------------------------------------------------
  // One slot
  // ---------------------------------------------------------------------

  /** One stretch under the slot's lock. An interleaving of threads is a sequence of them. */
  datatype Op = Ask(payload: Option<string>) | Take | Peek | Discard

  /** The slot after the operations, as the methods of `Slot` leave it. */
  function SlotAfter(ops: seq<Op>): Option<Request>
    decreases |ops|
  {
    if ops == [] then None
    else
      match ops[|ops| - 1]
      case Ask(payload) => Some(Work(payload))
      case Take => None
      case Discard => None
      case Peek => SlotAfter(ops[..|ops| - 1])
  }

  /** What the take at `j` returns. */
  function TakenAt(ops: seq<Op>, j: nat): Option<Request>
    requires j < |ops|
  {
    SlotAfter(ops[..j])
  }

  /** The first operation after `i` that does more than look. */
  function EndsAt(ops: seq<Op>, i: nat): (j: nat)
    requires i < |ops|
    ensures i < j <= |ops|
    ensures forall k | i < k < j :: ops[k].Peek?
    ensures j < |ops| ==> !ops[j].Peek?
    decreases |ops| - i
  {
    if i + 1 == |ops| || !ops[i + 1].Peek? then i + 1 else EndsAt(ops, i + 1)
  }

  datatype Fate = Returned(at: nat) | Replaced(at: nat) | Discarded(at: nat) | StillPending

  /** The one thing that becomes of the request made at `i`. */
  function FateOf(ops: seq<Op>, i: nat): Fate
    requires i < |ops| && ops[i].Ask?
  {
    var j := EndsAt(ops, i);
    if j == |ops| then StillPending
    else
      match ops[j]
      case Ask(_) => Replaced(j)
      case Take => Returned(j)
      case Discard => Discarded(j)
      case Peek => StillPending
  }

  /** The slot holds a request exactly when some request was followed only by looks, and
      then it holds that one. */
  lemma {:induction false} SlotHoldsTheLast(ops: seq<Op>)
    ensures forall i | 0 <= i < |ops| && ops[i].Ask? && EndsAt(ops, i) == |ops| ::
            SlotAfter(ops) == Some(Work(ops[i].payload))
    ensures SlotAfter(ops).Some? ==> exists i :: 0 <= i < |ops| && ops[i].Ask? && EndsAt(ops, i) == |ops|
    decreases |ops|
  {
    if ops != [] {
      var init, last := ops[..|ops| - 1], |ops| - 1;
      SlotHoldsTheLast(init);
      forall i | 0 <= i < |ops| && ops[i].Ask? && EndsAt(ops, i) == |ops|
        ensures SlotAfter(ops) == Some(Work(ops[i].payload))
      {
        if i < last {
          assert ops[last].Peek?;
          EndsInPrefix(ops, i, last);
        }
      }
      if SlotAfter(ops).Some? {
        if ops[last].Ask? {
          assert EndsAt(ops, last) == |ops|;
        } else {
          var i :| 0 <= i < |init| && init[i].Ask? && EndsAt(init, i) == |init|;
          EndsInPrefix(ops, i, last);
          assert EndsAt(ops, i) == |ops|;
        }
      }
    }
  }

  lemma EndsInPrefix(ops: seq<Op>, i: nat, n: nat)
    requires i < n <= |ops|
    ensures EndsAt(ops[..n], i) == if EndsAt(ops, i) < n then EndsAt(ops, i) else n
  {
    var a, b := EndsAt(ops[..n], i), EndsAt(ops, i);
    if a < n {
      assert !ops[a].Peek?;
    }
  }

  lemma EndsAtTake(ops: seq<Op>, j: nat)
    requires j < |ops| && ops[j].Take?
    ensures forall i | 0 <= i < j && ops[i].Ask? :: EndsAt(ops[..j], i) == j <==> FateOf(ops, i) == Returned(j)
  {
    forall i | 0 <= i < j && ops[i].Ask? ensures EndsAt(ops[..j], i) == j <==> FateOf(ops, i) == Returned(j) {
      EndsInPrefix(ops, i, j);
    }
  }

  /** Exactly once: a take returns something if and only if exactly one earlier request
      has that take as its fate, and then it returns that request, which is the newest
      since the last take or discard. */
  lemma TakeReturnsItsRequest(ops: seq<Op>, j: nat, w: Request)
    requires j < |ops| && ops[j].Take?
    ensures TakenAt(ops, j) == Some(w) <==>
            exists i :: 0 <= i < j && ops[i].Ask? && FateOf(ops, i) == Returned(j) && w == Work(ops[i].payload)
  {
    var before := ops[..j];
    SlotHoldsTheLast(before);
    EndsAtTake(ops, j);
    if TakenAt(ops, j) == Some(w) {
      var i :| 0 <= i < |before| && before[i].Ask? && EndsAt(before, i) == |before|;
      assert ops[i] == before[i];
    }
    if i :| 0 <= i < j && ops[i].Ask? && FateOf(ops, i) == Returned(j) && w == Work(ops[i].payload) {
      assert EndsAt(before, i) == j && before[i] == ops[i];
    }
  }

  /** No two requests share the operation that ends them, so no take returns two and no
      request is returned twice. */
  lemma FatesAreDistinct(ops: seq<Op>, a: nat, b: nat)
    requires a < b < |ops| && ops[a].Ask? && ops[b].Ask?
    ensures EndsAt(ops, a) <= b < EndsAt(ops, b)
    ensures FateOf(ops, a) != FateOf(ops, b)
  {
    assert !ops[b].Peek?;
  }

  /** A slot put through any operations is left as the history says, and each take
      returns what the history says of it. */
  method Perform(slot: Slot, ops: seq<Op>) returns (taken: seq<Option<Request>>)
    requires slot.request == None
    modifies slot, slot.wake
    ensures slot.request == SlotAfter(ops)
    ensures |taken| == |ops|
    ensures forall j | 0 <= j < |ops| && ops[j].Take? :: taken[j] == TakenAt(ops, j)
    ensures (exists j | 0 <= j < |ops| :: ops[j].Ask?) ==> slot.wake.flag
  {
    taken := [];
    for n := 0 to |ops|
      invariant slot.request == SlotAfter(ops[..n])
      invariant |taken| == n
      invariant forall j | 0 <= j < n && ops[j].Take? :: taken[j] == TakenAt(ops, j)
      invariant (exists j | 0 <= j < n :: ops[j].Ask?) ==> slot.wake.flag
    {
      var returned := None;
      match ops[n] {
        case Ask(payload) => slot.Request(payload);
        case Take => returned := slot.Take();
        case Peek => var _ := slot.Requested();
        case Discard => slot.Clear();
      }
      assert ops[..n + 1][..n] == ops[..n];
      taken := taken + [returned];
    }
    assert ops[..|ops|] == ops;
  }

  // Counting what each kind of operation did.

  function Asked(ops: seq<Op>): nat
    decreases |ops|
  {
    if ops == [] then 0 else Asked(ops[..|ops| - 1]) + if ops[|ops| - 1].Ask? then 1 else 0
  }

  /** How many operations of the kind found a request in the slot. */
  function Ended(ops: seq<Op>, kind: Op -> bool): nat
    decreases |ops|
  {
    if ops == [] then 0
    else
      var init := ops[..|ops| - 1];
      Ended(init, kind) + if kind(ops[|ops| - 1]) && SlotAfter(init).Some? then 1 else 0
  }

  /** Conservation: every request was returned by a take, replaced by a later request,
      discarded by a clear, or is still pending, and each counts once. */
  lemma {:induction false} RequestsAreConserved(ops: seq<Op>)
    ensures Asked(ops) == Ended(ops, (op: Op) => op.Take?) + Ended(ops, (op: Op) => op.Ask?)
                          + Ended(ops, (op: Op) => op.Discard?) + if SlotAfter(ops).Some? then 1 else 0
    decreases |ops|
  {
    if ops != [] {
      RequestsAreConserved(ops[..|ops| - 1]);
    }
  }

  // ---------------------------------------------------------------------
  // The two-statement form
  // ---------------------------------------------------------------------

  /** The module global the slot replaced: the main loop tests it in one statement and
      erases it in another. */
  datatype TornOp = TornAsk(payload: Option<string>) | Test | Erase

  datatype Torn = Torn(slot: Option<Request>, tested: Option<Request>, returned: seq<Request>)

  function TornAfter(ops: seq<TornOp>): Torn
    decreases |ops|
  {
    if ops == [] then Torn(None, None, [])
    else
      var before := TornAfter(ops[..|ops| - 1]);
      match ops[|ops| - 1]
      case TornAsk(payload) => before.(slot := Some(Work(payload)))
      case Test => before.(tested := before.slot)
      case Erase =>
        if before.tested.None? then before
        else Torn(None, None, before.returned + [before.tested.value])
  }

  /** A request that lands between the two statements has no fate: it is the last one
      made, nothing returned it, and nothing is pending. */
  lemma TornFormLosesARequest(first: Option<string>, second: Option<string>)
    ensures TornAfter([TornAsk(first), Test, TornAsk(second), Erase]) == Torn(None, None, [Work(first)])
  {
    var ops := [TornAsk(first), Test, TornAsk(second), Erase];
    assert ops[..3] == [TornAsk(first), Test, TornAsk(second)];
    assert ops[..3][..2] == [TornAsk(first), Test];
    assert ops[..3][..2][..1] == [TornAsk(first)];
    assert ops[..3][..2][..1][..0] == [];
    assert TornAfter([TornAsk(first)]) == Torn(Some(Work(first)), None, []);
    assert TornAfter([TornAsk(first), Test]) == Torn(Some(Work(first)), Some(Work(first)), []);
    assert TornAfter(ops[..3]) == Torn(Some(Work(second)), Some(Work(first)), []);
  }

  // ---------------------------------------------------------------------
  // The piece-event queue
  // ---------------------------------------------------------------------

  datatype QueueOp = Add(event: PieceEvent) | Next | Empty

  /** The queue and the events `Next` has returned, as the methods of `PieceEventQueue`
      leave them. */
  function QueueAfter(start: seq<PieceEvent>, ops: seq<QueueOp>): (seq<PieceEvent>, seq<PieceEvent>)
    decreases |ops|
  {
    if ops == [] then (start, [])
    else
      var (queue, returned) := QueueAfter(start, ops[..|ops| - 1]);
      match ops[|ops| - 1]
      case Add(event) => (queue + [event], returned)
      case Next => if queue == [] then (queue, returned) else (queue[1..], returned + [queue[0]])
      case Empty => ([], returned)
  }

  function AddedBy(ops: seq<QueueOp>): seq<PieceEvent>
    decreases |ops|
  {
    if ops == [] then []
    else AddedBy(ops[..|ops| - 1]) + if ops[|ops| - 1].Add? then [ops[|ops| - 1].event] else []
  }

  /** Between clears the events returned, followed by those still queued, are exactly the
      events there were and those added since, in order: none lost, none twice. */
  lemma {:induction false} QueueKeepsOrder(start: seq<PieceEvent>, ops: seq<QueueOp>)
    requires forall i | 0 <= i < |ops| :: !ops[i].Empty?
    ensures QueueAfter(start, ops).1 + QueueAfter(start, ops).0 == start + AddedBy(ops)
    decreases |ops|
  {
    if ops != [] {
      var init := ops[..|ops| - 1];
      QueueKeepsOrder(start, init);
      var (queue, returned) := QueueAfter(start, init);
      match ops[|ops| - 1]
      case Add(event) =>
        assert returned + (queue + [event]) == (returned + queue) + [event];
        assert start + AddedBy(ops) == (start + AddedBy(init)) + [event];
      case Next =>
        assert AddedBy(ops) == AddedBy(init);
        if queue != [] {
          assert returned + [queue[0]] + queue[1..] == returned + queue;
        }
      case Empty =>
    }
  }

  /** A real queue put through any operations is left as the history says, and has
      returned what the history says. */
  method PerformOnQueue(queue: PieceEventQueue, ops: seq<QueueOp>) returns (returned: seq<PieceEvent>)
    modifies queue
    ensures (queue.events, returned) == QueueAfter(old(queue.events), ops)
  {
    ghost var start := queue.events;
    returned := [];
    for n := 0 to |ops|
      invariant (queue.events, returned) == QueueAfter(start, ops[..n])
    {
      match ops[n] {
        case Add(event) => queue.Add(event);
        case Next =>
          var event := queue.Next();
          returned := if event.Some? then returned + [event.value] else returned;
        case Empty => queue.Clear();
      }
      assert ops[..n + 1][..n] == ops[..n];
    }
    assert ops[..|ops|] == ops;
  }

  /** The events that forwarding the first `n` events adds. */
  function Spawned(spawn: nat -> seq<PieceEvent>, n: nat): seq<PieceEvent> {
    if n == 0 then [] else Spawned(spawn, n - 1) + spawn(n - 1)
  }

  /** The event just taken, if any, and those behind it. */
  function Left(taken: Option<PieceEvent>, queued: seq<PieceEvent>): seq<PieceEvent> {
    (if taken.Some? then [taken.value] else []) + queued
  }

  /** Of the events taken, those for which the game was wired: the k-th is handed on if it
      had a controller or a protocol then, and dropped otherwise. */
  function Handed(taken: seq<PieceEvent>, wired: nat -> bool): seq<PieceEvent>
    decreases |taken|
  {
    if taken == [] then []
    else
      var last := |taken| - 1;
      Handed(taken[..last], wired) + if wired(last) then [taken[last]] else []
  }

  /** Where the game is wired throughout, every event taken is handed on. */
  lemma {:induction false} AllHanded(taken: seq<PieceEvent>, wired: nat -> bool)
    requires forall k | 0 <= k < |taken| :: wired(k)
    ensures Handed(taken, wired) == taken
    decreases |taken|
  {
    if taken != [] {
      AllHanded(taken[..|taken| - 1], wired);
    }
  }

  /** Draining into the game. Handling the k-th event lets `spawn(k)` be queued, by the
      handling itself or by other threads meanwhile. When that stops at some point, the
      drain ends with an empty queue, having taken every event there was and every event
      added on the way, oldest first, and handed on those for which the game was wired. */
  method DrainIntoGame(queue: PieceEventQueue, spawn: nat -> seq<PieceEvent>, wired: nat -> bool, ghost quiet: nat)
    returns (ghost taken: seq<PieceEvent>, forwarded: seq<PieceEvent>)
    requires forall k: nat | k >= quiet :: spawn(k) == []
    modifies queue
    ensures queue.events == []
    ensures taken == old(queue.events) + Spawned(spawn, |taken|)
    ensures forwarded == Handed(taken, wired)
  {
    taken, forwarded := [], [];
    var count: nat := 0;
    var queued := queue.Next();
    while queued.Some?
      invariant queued.None? ==> queue.events == []
      invariant count == |taken| && forwarded == Handed(taken, wired)
      invariant taken + Left(queued, queue.events) == old(queue.events) + Spawned(spawn, |taken|)
      decreases if |taken| < quiet then quiet - |taken| else 0,
                |queue.events| + if queued.Some? then 1 else 0
    {
      ghost var waiting, earlier := queue.events, taken;
      var added := spawn(count);
      if wired(count) {
        forwarded := forwarded + [queued.value];
      }
      taken := taken + [queued.value];
      assert taken[..|earlier|] == earlier;
      count := count + 1;
      AddAll(queue, added);
      OneForwarded(old(queue.events), earlier, queued.value, waiting, Spawned(spawn, |earlier|), added);
      queued := queue.Next();
      assert Left(queued, queue.events) == waiting + added;
    }
  }

  /** What reaches the queue while one event is forwarded. */
  method AddAll(queue: PieceEventQueue, added: seq<PieceEvent>)
    modifies queue
    ensures queue.events == old(queue.events) + added
  {
    for i := 0 to |added|
      invariant queue.events == old(queue.events) + added[..i]
    {
      queue.Add(added[i]);
      assert added[..i + 1] == added[..i] + [added[i]];
    }
    assert added[..|added|] == added;
  }

  lemma OneForwarded(start: seq<PieceEvent>, earlier: seq<PieceEvent>, event: PieceEvent,
                     waiting: seq<PieceEvent>, spawned: seq<PieceEvent>, added: seq<PieceEvent>)
    requires earlier + ([event] + waiting) == start + spawned
    ensures earlier + [event] + (waiting + added) == start + (spawned + added)
  {
    assert earlier + [event] + (waiting + added) == earlier + ([event] + waiting) + added;
    assert start + (spawned + added) == start + spawned + added;
  }
}
