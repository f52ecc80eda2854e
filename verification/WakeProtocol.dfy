/** The wake event between the threads that request work and the loop that performs it, as
    a transition system: any thread may move between any two steps of the loop. */
module WakeProtocol {
  import opened Outcomes
  import opened PendingWork
  import opened GameStep

  type Thread = nat

  /** The two halves of a request, in the order the slot has them or the other way round. */
  datatype Order = WriteThenSet | SetThenWrite

  /** What a thread inside a request has left to do. */
  datatype Owing = OwesWake(name: SlotName) | OwesWrite(name: SlotName, work: Request)

  /** Where the main loop is. */
  datatype Place =
    | CheckProfile          // top of a pass: is a display profile requested?
    | TakeProfile           // it was
    | Branch                // which screen is shown?
    | Poll(rank: nat)       // in a game: about to look at this rank
    | Waiting               // nothing ranked was found
    | Clearing              // the wait has ended
    | TakeReason            // a player rebuild was taken: why did the last game end?
    | Working(step: Step)   // performing the step, or anything else before the next pass

  datatype State = State(pending: Pending, wake: bool, owing: map<Thread, Owing>, place: Place)

  const START := State(map[], false, map[], CheckProfile)

  datatype Move =
    | Begin(thread: Thread, name: SlotName, work: Request)  // the first half of a request
    | Finish(thread: Thread)                                // the second half
    | Empty(name: SlotName)                                 // a take or a clear, by any thread
    | LoopStep(inGame: bool, timedOut: bool)                // the main loop's next step

  /** What each move does. A move that is not possible leaves the state as it is: so a wait
      with the event clear goes on until it times out. */
  function After(order: Order, s: State, move: Move): State {
    match move
    case Begin(t, name, work) =>
      if t in s.owing then s
      else if order == WriteThenSet then
        s.(pending := s.pending[name := Some(work)], owing := s.owing[t := OwesWake(name)])
      else s.(wake := true, owing := s.owing[t := OwesWrite(name, work)])
    case Finish(t) =>
      if t !in s.owing then s
      else
        var done := s.(owing := s.owing - {t});
        (match s.owing[t]
         case OwesWake(_) => done.(wake := true)
         case OwesWrite(name, work) => done.(pending := s.pending[name := Some(work)]))
    case Empty(name) => s.(pending := s.pending[name := None])
    case LoopStep(inGame, timedOut) => LoopAfter(s, inGame, timedOut)
  }

  /** What the loop does outside a game claims nothing. */
  const ELSEWHERE := Step(Idle, None)

  /** The pending work once rank `k` was found: the board command is only looked at. */
  function Polled(pending: Pending, k: nat): Pending
    requires k < |PRIORITY|
  {
    if PRIORITY[k].0 == BoardCommand then pending else pending[PRIORITY[k].0 := None]
  }

  function Found(k: nat): Place
    requires k < |PRIORITY|
  {
    if PRIORITY[k].1 == RebuildPlayers then TakeReason else Working(Step(PRIORITY[k].1, None))
  }

  function LoopAfter(s: State, inGame: bool, timedOut: bool): State {
    match s.place
    case CheckProfile => s.(place := if In(s.pending, DisplayProfile).Some? then TakeProfile else Branch)
    case TakeProfile => s.(pending := s.pending[DisplayProfile := None], place := Branch)
    case Branch => s.(place := if inGame then Poll(0) else Working(ELSEWHERE))
    case Poll(k) =>
      if k >= |PRIORITY| then s.(place := Waiting)
      else if In(s.pending, PRIORITY[k].0).None? then s.(place := Poll(k + 1))
      else s.(pending := Polled(s.pending, k), place := Found(k))
    case TakeReason =>
      s.(pending := s.pending[LichessNext := None], place := Working(Step(RebuildPlayers, Reason(s.pending))))
    case Waiting => if s.wake || timedOut then s.(place := Clearing) else s
    case Clearing => s.(wake := false, place := CheckProfile)
    case Working(_) => s.(place := CheckProfile)
  }

  /** The state after a run; its moves are those of any number of threads in any order. */
  function Run(order: Order, moves: seq<Move>): State
    decreases |moves|
  {
    if moves == [] then START else After(order, Run(order, moves[..|moves| - 1]), moves[|moves| - 1])
  }

  // ---------------------------------------------------------------------
  // No wakeup is lost
  // ---------------------------------------------------------------------

  /** The slots the loop has looked at, and found or made empty, since it last cleared the
      wake event. */
  predicate Watched(place: Place, name: SlotName) {
    match place
    case Poll(k) => name == DisplayProfile || exists j | 0 <= j < k && j < |PRIORITY| :: PRIORITY[j].0 == name
    case Branch => name == DisplayProfile
    case Waiting => IsPolled(name)
    case _ => false
  }

  predicate IsPolled(name: SlotName) {
    name == DisplayProfile || exists j | 0 <= j < |PRIORITY| :: PRIORITY[j].0 == name
  }

  lemma PolledSlots(name: SlotName)
    ensures IsPolled(name) <==>
            name in {DisplayProfile, SwitchToNormalGame, PlayerRebuild, LayoutRebuild, SettingsReload, BoardCommand}
  {
    assert PRIORITY[0].0 == SwitchToNormalGame && PRIORITY[1].0 == PlayerRebuild && PRIORITY[2].0 == LayoutRebuild;
    assert PRIORITY[3].0 == SettingsReload && PRIORITY[4].0 == BoardCommand;
  }

  /** Some thread has written the slot and is about to set the wake event. */
  ghost predicate AboutToWake(s: State, name: SlotName) {
    exists t | t in s.owing :: s.owing[t] == OwesWake(name)
  }

  /** What every step keeps: a request the loop has already looked past will wake it. */
  ghost predicate Safe(s: State) {
    && (forall t | t in s.owing :: s.owing[t].OwesWake?)
    && forall name: SlotName :: Watched(s.place, name) && In(s.pending, name).Some? ==> s.wake || AboutToWake(s, name)
  }

  lemma BeginKeeps(s: State, t: Thread, name: SlotName, work: Request)
    requires Safe(s)
    ensures Safe(After(WriteThenSet, s, Begin(t, name, work)))
  {
    var z := After(WriteThenSet, s, Begin(t, name, work));
    if t !in s.owing {
      assert z.owing[t] == OwesWake(name);
      forall n: SlotName | Watched(z.place, n) && In(z.pending, n).Some? ensures z.wake || AboutToWake(z, n) {
        if n != name && !s.wake {
          var u :| u in s.owing && s.owing[u] == OwesWake(n);
          assert u in z.owing && z.owing[u] == OwesWake(n);
        }
      }
    }
  }

  lemma LoopKeeps(s: State, inGame: bool, timedOut: bool)
    requires Safe(s)
    ensures Safe(LoopAfter(s, inGame, timedOut))
  {
    var z := LoopAfter(s, inGame, timedOut);
    forall n: SlotName | Watched(z.place, n) && In(z.pending, n).Some? ensures z.wake || AboutToWake(z, n) {
      WatchedBefore(s, inGame, timedOut, n);
      if !s.wake {
        var t :| t in s.owing && s.owing[t] == OwesWake(n);
        assert t in z.owing && z.owing[t] == OwesWake(n);
      }
    }
  }

  /** A slot watched after a step of the loop and pending was watched and pending before. */
  lemma WatchedBefore(s: State, inGame: bool, timedOut: bool, n: SlotName)
    requires var z := LoopAfter(s, inGame, timedOut); Watched(z.place, n) && In(z.pending, n).Some?
    ensures var z := LoopAfter(s, inGame, timedOut);
            Watched(s.place, n) && In(s.pending, n).Some? && z.owing == s.owing && z.wake == s.wake
  {
    if s.place.Poll? {
      WatchedPoll(s.place.rank, n);
    }
  }

  lemma WatchedPoll(k: nat, n: SlotName)
    ensures Watched(Poll(k + 1), n) <==> Watched(Poll(k), n) || (k < |PRIORITY| && PRIORITY[k].0 == n)
    ensures k >= |PRIORITY| ==> (Watched(Waiting, n) <==> Watched(Poll(k), n))
  {
  }

  lemma MoveKeeps(s: State, move: Move)
    requires Safe(s)
    ensures Safe(After(WriteThenSet, s, move))
  {
    match move
    case Begin(t, name, work) => BeginKeeps(s, t, name, work);
    case Finish(t) =>
    case Empty(name) =>
      var z := After(WriteThenSet, s, move);
      forall n: SlotName | Watched(z.place, n) && In(z.pending, n).Some? ensures z.wake || AboutToWake(z, n) {
        if !s.wake {
          var t :| t in s.owing && s.owing[t] == OwesWake(n);
          assert t in z.owing && z.owing[t] == OwesWake(n);
        }
      }
    case LoopStep(inGame, timedOut) => LoopKeeps(s, inGame, timedOut);
  }

  lemma {:induction false} RunIsSafe(moves: seq<Move>)
    ensures Safe(Run(WriteThenSet, moves))
    decreases |moves|
  {
    if moves != [] {
      RunIsSafe(moves[..|moves| - 1]);
      MoveKeeps(Run(WriteThenSet, moves[..|moves| - 1]), moves[|moves| - 1]);
    }
  }

  /** In every interleaving: when the loop waits with the wake event clear, each slot it
      polls is empty, or a thread has written it and is about to set the event. */
  lemma NoLostWakeup(moves: seq<Move>, name: SlotName)
    requires IsPolled(name)
    ensures var s := Run(WriteThenSet, moves);
            s.place == Waiting && !s.wake && In(s.pending, name).Some? ==> AboutToWake(s, name)
  {
    RunIsSafe(moves);
  }

  /** So with no request half made, the wait goes on without a timeout only while nothing
      polled is pending. */
  lemma WaitsOnlyWhenNothingIsPending(moves: seq<Move>, name: SlotName, inGame: bool)
    requires IsPolled(name)
    ensures var s := Run(WriteThenSet, moves);
            s.place == Waiting && s.owing == map[] && After(WriteThenSet, s, LoopStep(inGame, false)).place == Waiting
            ==> In(s.pending, name).None?
  {
    NoLostWakeup(moves, name);
  }

  // ---------------------------------------------------------------------
  // What a pass performs
  // ---------------------------------------------------------------------

  /** The run is at a rank after `j` and up to `k` after `i` moves. */
  predicate Between(order: Order, moves: seq<Move>, i: nat, j: nat, k: nat)
    requires i <= |moves|
  {
    var place := Run(order, moves[..i]).place;
    place.Poll? && j < place.rank <= k
  }

  /** After `m` moves the loop looked at rank `j` and found nothing, and it has been going
      down the ranks since. */
  predicate FoundEmpty(order: Order, moves: seq<Move>, m: nat, j: nat, k: nat)
    requires j < |PRIORITY|
  {
    && m < |moves|
    && Run(order, moves[..m]).place == Poll(j)
    && In(Run(order, moves[..m]).pending, PRIORITY[j].0).None?
    && forall i | m < i <= |moves| :: Between(order, moves, i, j, k)
  }

  lemma ReachesRank(order: Order, s: State, move: Move, k: nat)
    requires After(order, s, move).place == Poll(k) && 0 < k <= |PRIORITY|
    ensures s.place == Poll(k) || (s.place == Poll(k - 1) && In(s.pending, PRIORITY[k - 1].0).None?)
  {
  }

  lemma StillEmpty(order: Order, moves: seq<Move>, m: nat, j: nat, h: nat, k: nat)
    requires moves != [] && j < |PRIORITY| && h <= k
    requires FoundEmpty(order, moves[..|moves| - 1], m, j, h)
    requires Run(order, moves).place == Poll(k) && j < k
    ensures FoundEmpty(order, moves, m, j, k)
  {
    var init := moves[..|moves| - 1];
    assert moves[..|moves|] == moves;
    assert moves[..m] == init[..m];
    forall i | m < i <= |moves| ensures Between(order, moves, i, j, k) {
      StillBetween(order, moves, init, i, j, h, k);
    }
  }

  lemma StillBetween(order: Order, moves: seq<Move>, init: seq<Move>, i: nat, j: nat, h: nat, k: nat)
    requires moves != [] && init == moves[..|moves| - 1] && i <= |moves| && h <= k && j < k
    requires i < |moves| ==> Between(order, init, i, j, h)
    requires Run(order, moves).place == Poll(k)
    ensures Between(order, moves, i, j, k)
  {
    if i < |moves| {
      assert moves[..i] == init[..i];
    } else {
      assert moves[..i] == moves;
    }
  }

  /** In every interleaving, a loop about to look at rank `k` looked at each higher rank
      earlier in the same pass and found its slot empty at that moment. */
  lemma {:induction false} HigherRanksWereEmpty(order: Order, moves: seq<Move>, j: nat, k: nat)
    requires Run(order, moves).place == Poll(k) && j < k <= |PRIORITY|
    ensures exists m :: FoundEmpty(order, moves, m, j, k)
    decreases |moves|
  {
    var n := |moves| - 1;
    var init := moves[..n];
    ReachesRank(order, Run(order, init), moves[n], k);
    var h := Run(order, init).place.rank;
    if h == j {
      assert moves[..|moves|] == moves;
      assert forall i | n < i <= |moves| :: Between(order, moves, i, j, k);
      assert FoundEmpty(order, moves, n, j, k);
    } else {
      HigherRanksWereEmpty(order, init, j, h);
      var m :| FoundEmpty(order, init, m, j, h);
      StillEmpty(order, moves, m, j, h, k);
    }
  }

  /** The main loop alone, in a game, with no timeout. */
  function LoopSteps(s: State, n: nat): State
    decreases n
  {
    if n == 0 then s else LoopSteps(LoopAfter(s, true, false), n - 1)
  }

  function Loops(n: nat): seq<Move> {
    seq(n, _ => LoopStep(true, false))
  }

  lemma {:induction false} RunLoops(order: Order, moves: seq<Move>, n: nat)
    ensures Run(order, moves + Loops(n)) == LoopSteps(Run(order, moves), n)
    decreases n
  {
    if n == 0 {
      assert moves + Loops(0) == moves;
    } else {
      var step := LoopStep(true, false);
      assert (moves + [step])[..|moves|] == moves;
      assert moves + Loops(n) == moves + [step] + Loops(n - 1);
      RunLoops(order, moves + [step], n - 1);
    }
  }

  /** Undisturbed, a poll from rank `i` stops at the first slot that has something, which it
      takes unless it is the board command, or goes to sleep. */
  lemma {:induction false} PollStops(s: State, i: nat)
    requires s.place == Poll(i) && i <= |PRIORITY|
    ensures LoopSteps(s, FirstPending(s.pending, i) - i + 1) == PollEnd(s, FirstPending(s.pending, i))
    decreases |PRIORITY| - i
  {
    var next := LoopAfter(s, true, false);
    if i == |PRIORITY| || In(s.pending, PRIORITY[i].0).Some? {
      assert LoopSteps(next, 0) == next;
    } else {
      PollStops(next, i + 1);
      assert PollEnd(next, FirstPending(s.pending, i)) == PollEnd(s, FirstPending(s.pending, i));
    }
  }

  /** The state once the poll has come to rank `k`. */
  function PollEnd(s: State, k: nat): State
    requires k <= |PRIORITY|
  {
    if k == |PRIORITY| then s.(place := Waiting) else s.(pending := Polled(s.pending, k), place := Found(k))
  }

  /** What an undisturbed pass works on: the pending work once a display profile is done. */
  function Offered(pending: Pending): Pending {
    if In(pending, DisplayProfile).Some? then pending[DisplayProfile := None] else pending
  }

  /** The loop's steps from the top of a pass until it works or waits. */
  function PassLength(pending: Pending): nat {
    var k := FirstPending(Offered(pending), 0);
    (if In(pending, DisplayProfile).Some? then 4 else 3) + k
    + if k < |PRIORITY| && PRIORITY[k].1 == RebuildPlayers then 1 else 0
  }

  /** The state at the end of a pass, as the game claim states it. */
  function PassEnd(s: State): State {
    var offered := Offered(s.pending);
    var (left, step) := Claim(offered);
    if step.action == Idle then s.(pending := offered, place := Waiting)
    else s.(pending := left, place := Working(step))
  }

  lemma TopOfPass(s: State)
    requires s.place == CheckProfile
    ensures LoopSteps(s, if In(s.pending, DisplayProfile).Some? then 3 else 2) ==
            s.(pending := Offered(s.pending), place := Poll(0))
  {
    var a := LoopAfter(s, true, false);
    var b := LoopAfter(a, true, false);
    var c := LoopAfter(b, true, false);
    assert LoopSteps(s, 2) == LoopSteps(a, 1) == LoopSteps(b, 0);
    assert LoopSteps(s, 3) == LoopSteps(a, 2) == LoopSteps(b, 1) == LoopSteps(c, 0);
  }

  lemma ReasonStep(s: State)
    requires s.place == TakeReason
    ensures LoopSteps(s, 1) ==
            s.(pending := s.pending[LichessNext := None], place := Working(Step(RebuildPlayers, Reason(s.pending))))
  {
    assert LoopSteps(s, 1) == LoopSteps(LoopAfter(s, true, false), 0);
  }

  /** One undisturbed pass of the step-by-step loop does what the one-call claim does, the
      reason of a rebuild included, after a display profile if one is pending. */
  lemma PassClaims(s: State)
    requires s.place == CheckProfile
    ensures LoopSteps(s, PassLength(s.pending)) == PassEnd(s)
  {
    var offered := Offered(s.pending);
    var k := FirstPending(offered, 0);
    var top: nat := if In(s.pending, DisplayProfile).Some? then 3 else 2;
    var polled := PollEnd(s.(pending := offered), k);
    PassPolls(s, top, k);
    if k < |PRIORITY| && PRIORITY[k].1 == RebuildPlayers {
      LoopStepsAdd(s, top + (k + 1), 1);
      ReasonStep(polled);
    }
    EndOfPoll(s, k);
  }

  lemma PassPolls(s: State, top: nat, k: nat)
    requires s.place == CheckProfile && k == FirstPending(Offered(s.pending), 0)
    requires top == if In(s.pending, DisplayProfile).Some? then 3 else 2
    ensures LoopSteps(s, top + (k + 1)) == PollEnd(s.(pending := Offered(s.pending)), k)
  {
    var polling := s.(pending := Offered(s.pending), place := Poll(0));
    TopOfPass(s);
    PollStops(polling, 0);
    LoopStepsAdd(s, top, k + 1);
    assert PollEnd(polling, k) == PollEnd(s.(pending := Offered(s.pending)), k);
  }

  lemma EndOfPoll(s: State, k: nat)
    requires k == FirstPending(Offered(s.pending), 0)
    ensures var polled := PollEnd(s.(pending := Offered(s.pending)), k);
            PassEnd(s) ==
            if k < |PRIORITY| && PRIORITY[k].1 == RebuildPlayers
            then polled.(pending := polled.pending[LichessNext := None],
                         place := Working(Step(RebuildPlayers, Reason(polled.pending))))
            else polled
  {
    if k < |PRIORITY| {
      Ranks(k);
    }
  }

  lemma {:induction false} LoopStepsAdd(s: State, m: nat, n: nat)
    ensures LoopSteps(s, m + n) == LoopSteps(LoopSteps(s, m), n)
    decreases m
  {
    if m > 0 {
      LoopStepsAdd(LoopAfter(s, true, false), m - 1, n);
    }
  }

  lemma WaitEnds(s: State)
    requires s.place == Waiting && s.wake
    ensures LoopSteps(s, 2) == s.(wake := false, place := CheckProfile)
  {
    var z := LoopAfter(s, true, false);
    assert LoopSteps(s, 2) == LoopSteps(z, 1) == LoopSteps(LoopAfter(z, true, false), 0);
  }

  lemma RunRequest(moves: seq<Move>, t: Thread, name: SlotName, work: Request)
    requires t !in Run(WriteThenSet, moves).owing
    ensures var s := Run(WriteThenSet, moves);
            Run(WriteThenSet, moves + [Begin(t, name, work), Finish(t)])
            == s.(pending := s.pending[name := Some(work)], wake := true)
  {
    var s := Run(WriteThenSet, moves);
    var begun := moves + [Begin(t, name, work)];
    var asked := moves + [Begin(t, name, work), Finish(t)];
    assert begun[..|moves|] == moves && asked[..|begun|] == begun;
    assert Run(WriteThenSet, begun) ==
        s.(pending := s.pending[name := Some(work)], owing := s.owing[t := OwesWake(name)]);
    assert s.owing[t := OwesWake(name)] - {t} == s.owing;
  }

  /** A loop woken with one ranked slot pending comes to work on that slot. */
  lemma ServesTheOnlyOne(s: State, k: nat, work: Request)
    requires s.place == Waiting && s.wake && k < |PRIORITY|
    requires In(s.pending, DisplayProfile).None?
    requires forall j | 0 <= j < |PRIORITY| :: In(s.pending, PRIORITY[j].0) == if j == k then Some(work) else None
    ensures LoopSteps(s, 2 + PassLength(s.pending)) ==
            s.(pending := ClaimAt(s.pending, k).0, wake := false, place := Working(ClaimAt(s.pending, k).1))
  {
    WaitEnds(s);
    LoopStepsAdd(s, 2, PassLength(s.pending));
    FirstIs(s.pending, 0, k);
    Ranks(k);
    ClaimAtIsExact(s.pending, k, DisplayProfile);
    PassClaims(s.(wake := false, place := CheckProfile));
  }

  /** A request for a ranked slot made while the loop waits with nothing pending ends the
      wait, and the pass that follows works on it and leaves its slot empty, or full for
      the board command, which its handler takes. */
  lemma RequestEndsTheWait(moves: seq<Move>, t: Thread, k: nat, work: Request) returns (n: nat)
    requires k < |PRIORITY|
    requires Run(WriteThenSet, moves).place == Waiting && t !in Run(WriteThenSet, moves).owing
    requires forall name: SlotName | IsPolled(name) :: In(Run(WriteThenSet, moves).pending, name).None?
    ensures n <= k + 6
    ensures var z := Run(WriteThenSet, moves + [Begin(t, PRIORITY[k].0, work), Finish(t)] + Loops(n));
            && z.place.Working? && z.place.step.action == PRIORITY[k].1 && !z.wake
            && In(z.pending, PRIORITY[k].0) == (if PRIORITY[k].0 == BoardCommand then Some(work) else None)
            && forall j | 0 <= j < |PRIORITY| && j != k :: In(z.pending, PRIORITY[j].0).None?
  {
    var name := PRIORITY[k].0;
    var s := Run(WriteThenSet, moves);
    RunRequest(moves, t, name, work);
    var a := s.(pending := s.pending[name := Some(work)], wake := true);
    OnlyOne(s.pending, k, work);
    FirstIs(a.pending, 0, k);
    n := 2 + PassLength(a.pending);
    RunLoops(WriteThenSet, moves + [Begin(t, name, work), Finish(t)], n);
    ServesTheOnlyOne(a, k, work);
    ClaimLeaves(a.pending, k, work);
  }

  lemma ClaimLeaves(pending: Pending, k: nat, work: Request)
    requires k < |PRIORITY|
    requires forall j | 0 <= j < |PRIORITY| :: In(pending, PRIORITY[j].0) == if j == k then Some(work) else None
    ensures var (left, step) := ClaimAt(pending, k);
            && step.action == PRIORITY[k].1
            && In(left, PRIORITY[k].0) == (if PRIORITY[k].0 == BoardCommand then Some(work) else None)
            && forall j | 0 <= j < |PRIORITY| && j != k :: In(left, PRIORITY[j].0).None?
  {
    ClaimAtIsExact(pending, k, PRIORITY[k].0);
    Ranks(k);
    forall j | 0 <= j < |PRIORITY| && j != k ensures In(ClaimAt(pending, k).0, PRIORITY[j].0).None? {
      Ranks(j);
      ClaimAtIsExact(pending, k, PRIORITY[j].0);
      assert In(pending, PRIORITY[j].0).None?;
    }
  }

  lemma OnlyOne(pending: Pending, k: nat, work: Request)
    requires k < |PRIORITY| && forall name: SlotName | IsPolled(name) :: In(pending, name).None?
    ensures var a := pending[PRIORITY[k].0 := Some(work)];
            && In(a, DisplayProfile).None?
            && forall j | 0 <= j < |PRIORITY| :: In(a, PRIORITY[j].0) == if j == k then Some(work) else None
  {
    Ranks(k);
    ProfileIsNotRanked(k);
    assert IsPolled(DisplayProfile);
    forall j | 0 <= j < |PRIORITY| ensures IsPolled(PRIORITY[j].0) {
    }
  }

  lemma ProfileIsNotRanked(k: nat)
    requires k < |PRIORITY|
    ensures PRIORITY[k].0 != DisplayProfile
  {
  }

  lemma {:induction false} FirstIs(pending: Pending, i: nat, k: nat)
    requires i <= k < |PRIORITY| && In(pending, PRIORITY[k].0).Some?
    requires forall j | i <= j < k :: In(pending, PRIORITY[j].0).None?
    ensures FirstPending(pending, i) == k
    decreases k - i
  {
    if i < k {
      FirstIs(pending, i + 1, k);
    }
  }

  lemma {:induction false} NothingFirst(pending: Pending, i: nat)
    requires i <= |PRIORITY| && forall j | i <= j < |PRIORITY| :: In(pending, PRIORITY[j].0).None?
    ensures FirstPending(pending, i) == |PRIORITY|
    decreases |PRIORITY| - i
  {
    if i < |PRIORITY| {
      NothingFirst(pending, i + 1);
    }
  }

  lemma IdlePass(wake: bool, owing: map<Thread, Owing>)
    ensures LoopSteps(State(map[], wake, owing, CheckProfile), 8) == State(map[], wake, owing, Waiting)
  {
    NothingFirst(map[], 0);
    PassClaims(State(map[], wake, owing, CheckProfile));
  }

  lemma RunBegin(t: Thread, name: SlotName, work: Request)
    ensures Run(SetThenWrite, [Begin(t, name, work)]) ==
            State(map[], true, map[t := OwesWrite(name, work)], CheckProfile)
  {
    assert [Begin(t, name, work)][..0] == [];
    assert Run(SetThenWrite, []) == START;
  }

  lemma SleepsAgain(owing: map<Thread, Owing>)
    ensures LoopSteps(State(map[], true, owing, CheckProfile), 18) == State(map[], false, owing, Waiting)
  {
    var s := State(map[], true, owing, CheckProfile);
    IdlePass(true, owing);
    WaitEnds(State(map[], true, owing, Waiting));
    IdlePass(false, owing);
    LoopStepsAdd(s, 8, 2);
    LoopStepsAdd(s, 10, 8);
  }

  lemma LostRun(t: Thread, work: Request) returns (moves: seq<Move>)
    ensures Run(SetThenWrite, moves) == State(map[PlayerRebuild := Some(work)], false, map[], Waiting)
  {
    var owing := map[t := OwesWrite(PlayerRebuild, work)];
    var begun := [Begin(t, PlayerRebuild, work)];
    var waiting := begun + Loops(18);
    RunBegin(t, PlayerRebuild, work);
    RunLoops(SetThenWrite, begun, 18);
    SleepsAgain(owing);
    moves := waiting + [Finish(t)];
    assert moves[..|waiting|] == waiting;
    FinishWrites(t, work, owing);
  }

  lemma FinishWrites(t: Thread, work: Request, owing: map<Thread, Owing>)
    requires owing == map[t := OwesWrite(PlayerRebuild, work)]
    ensures After(SetThenWrite, State(map[], false, owing, Waiting), Finish(t)) ==
            State(map[PlayerRebuild := Some(work)], false, map[], Waiting)
  {
    assert owing - {t} == map[];
  }

  /** The order of the two halves matters. With the event set before the slot is written,
      the loop can wait on a clear event with a rebuild pending and nobody left to wake
      it. */
  lemma OtherOrderLosesAWakeup(t: Thread, work: Request)
    ensures exists moves :: var s := Run(SetThenWrite, moves);
              s.place == Waiting && !s.wake && s.owing == map[] && In(s.pending, PlayerRebuild) == Some(work)
  {
    var moves := LostRun(t, work);
  }
}
