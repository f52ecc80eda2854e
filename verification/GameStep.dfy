/** Which deferred repair the main loop performs while a game is running. */
module GameStep {
  import opened Outcomes
  import opened PendingWork

  datatype GameAction =
    | Idle | SwitchToNormal | RebuildPlayers | RebuildLayout | ReloadSettings | ApplyBoardCommand

  datatype Step = Step(action: GameAction, lichessReason: Option<string>)

  /** Highest first. */
  const PRIORITY: seq<(SlotName, GameAction)> :=
    [(SwitchToNormalGame, SwitchToNormal), (PlayerRebuild, RebuildPlayers), (LayoutRebuild, RebuildLayout),
     (SettingsReload, ReloadSettings), (BoardCommand, ApplyBoardCommand)]

  /** The first ranked slot, from rank `i`, with something pending. */
  function FirstPending(pending: Pending, i: nat): (k: nat)
    requires i <= |PRIORITY|
    ensures i <= k <= |PRIORITY|
    ensures forall j | i <= j < k :: In(pending, PRIORITY[j].0).None?
    ensures k < |PRIORITY| ==> In(pending, PRIORITY[k].0).Some?
    decreases |PRIORITY| - i
  {
    if i == |PRIORITY| || In(pending, PRIORITY[i].0).Some? then i else FirstPending(pending, i + 1)
  }

  function Reason(pending: Pending): Option<string> {
    var request := In(pending, LichessNext);
    if request.Some? then request.value.payload else None
  }

  /** The pending work after a claim of rank `k`, and the step claimed. */
  function ClaimAt(pending: Pending, k: nat): (Pending, Step)
    requires k < |PRIORITY|
  {
    var (name, action) := PRIORITY[k];
    var left := if name == BoardCommand then pending else pending[name := None];
    if action == RebuildPlayers then (left[LichessNext := None], Step(action, Reason(left)))
    else (left, Step(action, None))
  }

  function Claim(pending: Pending): (Pending, Step) {
    var k := FirstPending(pending, 0);
    if k == |PRIORITY| then (pending, Step(Idle, None)) else ClaimAt(pending, k)
  }

  /** One rank of the poll. The board command is only looked at: the code that applies it
      reads and clears it. */
  method Poll(work: DeferredWork, name: SlotName) returns (found: bool)
    requires work.Valid()
    modifies work.Slots()
    ensures found == In(old(work.View()), name).Some?
    ensures work.View() == if found && name != BoardCommand then old(work.View())[name := None] else old(work.View())
  {
    if name == BoardCommand {
      found := work.Requested(name);
    } else {
      ghost var before := work.View();
      assert name in work.slots;
      var taken := work.Take(name);
      found := taken.Some?;
      if !found {
        assert before == before[name := None];
      }
    }
  }

  /** Goes down the ranking and stops at the first slot that has something. */
  method ClaimGameStep(work: DeferredWork) returns (step: Step)
    requires work.Valid()
    modifies work.Slots()
    ensures (work.View(), step) == Claim(old(work.View()))
  {
    ghost var before := work.View();
    for i := 0 to |PRIORITY|
      invariant work.View() == before
      invariant FirstPending(before, 0) == FirstPending(before, i)
    {
      var (name, action) := PRIORITY[i];
      var found := Poll(work, name);
      if found {
        ghost var left := work.View();
        var reason := None;
        if action == RebuildPlayers {
          var request := work.Take(LichessNext);
          reason := if request.Some? then request.value.payload else None;
        }
        step := Step(action, reason);
        ClaimWith(before, left, i);
        return;
      }
    }
    step := Step(Idle, None);
  }

  lemma ClaimWith(pending: Pending, left: Pending, k: nat)
    requires k < |PRIORITY| && k == FirstPending(pending, 0)
    requires left == if PRIORITY[k].0 != BoardCommand then pending[PRIORITY[k].0 := None] else pending
    ensures Claim(pending) == if PRIORITY[k].1 == RebuildPlayers
                              then (left[LichessNext := None], Step(PRIORITY[k].1, Reason(left)))
                              else (left, Step(PRIORITY[k].1, None))
  {
  }

  // ---------------------------------------------------------------------
  // What a pass leaves
  // ---------------------------------------------------------------------

  /** The claim performs the highest-ranked pending work and touches nothing else: every
      slot keeps what it has, but for the one performed and, with a player rebuild, the
      reason it carries. It is idle if and only if no ranked slot has anything. */
  lemma ClaimIsExact(pending: Pending, name: SlotName)
    ensures var k := FirstPending(pending, 0);
            var (left, step) := Claim(pending);
            && (step.action == Idle <==> forall i | 0 <= i < |PRIORITY| :: In(pending, PRIORITY[i].0).None?)
            && (k < |PRIORITY| ==> step.action == PRIORITY[k].1)
            && (step.action == RebuildPlayers ==> step.lichessReason == Reason(pending))
            && (step.action != RebuildPlayers ==> step.lichessReason == None)
            && In(left, name) ==
               if k < |PRIORITY| && ((name == PRIORITY[k].0 && name != BoardCommand)
                                     || (name == LichessNext && step.action == RebuildPlayers))
               then None else In(pending, name)
  {
    var k := FirstPending(pending, 0);
    if k < |PRIORITY| {
      Ranks(k);
      ClaimAtIsExact(pending, k, name);
    } else {
      assert forall i | 0 <= i < k :: In(pending, PRIORITY[i].0).None?;
    }
  }

  /** The claim slot by slot: what each kind of pending work makes the loop do when nothing
      above it is pending, and what is left pending then. */
  lemma ClaimByName(pending: Pending)
    ensures Claim(pending) ==
            if In(pending, SwitchToNormalGame).Some? then
              (pending[SwitchToNormalGame := None], Step(SwitchToNormal, None))
            else if In(pending, PlayerRebuild).Some? then
              (pending[PlayerRebuild := None][LichessNext := None],
               Step(RebuildPlayers, if In(pending, LichessNext).Some? then In(pending, LichessNext).value.payload
                                    else None))
            else if In(pending, LayoutRebuild).Some? then
              (pending[LayoutRebuild := None], Step(RebuildLayout, None))
            else if In(pending, SettingsReload).Some? then
              (pending[SettingsReload := None], Step(ReloadSettings, None))
            else if In(pending, BoardCommand).Some? then
              (pending, Step(ApplyBoardCommand, None))
            else
              (pending, Step(Idle, None))
  {
    var k := FirstPending(pending, 0);
    if k < |PRIORITY| {
      assert forall j | 0 <= j < k :: In(pending, PRIORITY[j].0).None?;
      var left := if PRIORITY[k].0 == BoardCommand then pending else pending[PRIORITY[k].0 := None];
      assert Reason(left) == Reason(pending);
    } else {
      assert forall j | 0 <= j < k :: In(pending, PRIORITY[j].0).None?;
      assert In(pending, PRIORITY[0].0).None? && In(pending, PRIORITY[1].0).None? && In(pending, PRIORITY[2].0).None?;
      assert In(pending, PRIORITY[3].0).None? && In(pending, PRIORITY[4].0).None?;
    }
  }

  lemma Ranks(k: nat)
    requires k < |PRIORITY|
    ensures PRIORITY[k].1 != Idle && PRIORITY[k].0 != LichessNext
    ensures PRIORITY[k].0 == BoardCommand <==> PRIORITY[k].1 == ApplyBoardCommand
    ensures forall j | 0 <= j < |PRIORITY| && j != k :: PRIORITY[j].0 != PRIORITY[k].0
  {
  }

  lemma ClaimAtIsExact(pending: Pending, k: nat, name: SlotName)
    requires k < |PRIORITY|
    ensures var (left, step) := ClaimAt(pending, k);
            && step.action == PRIORITY[k].1
            && step.lichessReason == (if step.action == RebuildPlayers then Reason(pending) else None)
            && In(left, name) ==
               if (name == PRIORITY[k].0 && name != BoardCommand)
                  || (name == LichessNext && step.action == RebuildPlayers)
               then None else In(pending, name)
  {
    Ranks(k);
    var left := if PRIORITY[k].0 == BoardCommand then pending else pending[PRIORITY[k].0 := None];
    assert Reason(left) == Reason(pending);
  }

  /** The caller applies a board command by taking it; every other action was claimed. */
  function Serviced(pending: Pending, action: GameAction): Pending {
    if action == ApplyBoardCommand then pending[BoardCommand := None] else pending
  }

  /** A pass empties the rank it serves and leaves the ranks below it as they were. */
  lemma PassAdvances(pending: Pending)
    requires FirstPending(pending, 0) < |PRIORITY|
    ensures var k := FirstPending(pending, 0);
            var (left, step) := Claim(pending);
            var after := Serviced(left, step.action);
            && step.action == PRIORITY[k].1 && step.action != Idle
            && (forall j | 0 <= j <= k :: In(after, PRIORITY[j].0).None?)
            && (forall j | k < j < |PRIORITY| :: In(after, PRIORITY[j].0) == In(pending, PRIORITY[j].0))
            && FirstPending(after, 0) > k
  {
    var k := FirstPending(pending, 0);
    var (left, step) := Claim(pending);
    var after := Serviced(left, step.action);
    Ranks(k);
    forall j | 0 <= j < |PRIORITY|
      ensures In(after, PRIORITY[j].0) == if j <= k then None else In(pending, PRIORITY[j].0)
    {
      Ranks(j);
      ClaimAtIsExact(pending, k, PRIORITY[j].0);
    }
    EmptyTo(after, 0, k);
  }

  lemma {:induction false} EmptyTo(pending: Pending, i: nat, k: nat)
    requires i <= k < |PRIORITY| && forall j | i <= j <= k :: In(pending, PRIORITY[j].0).None?
    ensures FirstPending(pending, i) > k
    decreases k - i
  {
    if i < k {
      EmptyTo(pending, i + 1, k);
    }
  }

  /** The actions of one pass after another, with no new requests, until the loop idles. */
  function Drained(pending: Pending): seq<GameAction>
    decreases |PRIORITY| - FirstPending(pending, 0)
  {
    if FirstPending(pending, 0) == |PRIORITY| then
      []
    else
      PassAdvances(pending);
      var (left, step) := Claim(pending);
      [step.action] + Drained(Serviced(left, step.action))
  }

  /** The pending actions in rank order. */
  function Ranked(pending: Pending, i: nat): seq<GameAction>
    requires i <= |PRIORITY|
    decreases |PRIORITY| - i
  {
    if i == |PRIORITY| then []
    else (if In(pending, PRIORITY[i].0).Some? then [PRIORITY[i].1] else []) + Ranked(pending, i + 1)
  }

  lemma {:induction false} RankedSkips(pending: Pending, i: nat, k: nat)
    requires i <= k <= |PRIORITY| && forall j | i <= j < k :: In(pending, PRIORITY[j].0).None?
    ensures Ranked(pending, i) == Ranked(pending, k)
    decreases k - i
  {
    if i < k {
      RankedSkips(pending, i + 1, k);
    }
  }

  lemma {:induction false} RankedFrom(a: Pending, b: Pending, i: nat)
    requires i <= |PRIORITY|
    requires forall j | i <= j < |PRIORITY| :: In(a, PRIORITY[j].0) == In(b, PRIORITY[j].0)
    ensures Ranked(a, i) == Ranked(b, i)
    decreases |PRIORITY| - i
  {
    if i < |PRIORITY| {
      RankedFrom(a, b, i + 1);
    }
  }

  /** Any set of pending repairs is performed in rank order, each once, in as many passes
      as it has members. */
  lemma {:induction false} DrainsInRankOrder(pending: Pending)
    ensures Drained(pending) == Ranked(pending, 0)
    decreases |PRIORITY| - FirstPending(pending, 0)
  {
    var k := FirstPending(pending, 0);
    RankedSkips(pending, 0, k);
    if k < |PRIORITY| {
      PassAdvances(pending);
      var (left, step) := Claim(pending);
      var after := Serviced(left, step.action);
      DrainsInRankOrder(after);
      RankedSkips(after, 0, k + 1);
      RankedFrom(after, pending, k + 1);
    }
  }

  /** A reason without a player rebuild is not claimed, whatever else is pending: the
      step carries none, and the reason waits for the next rebuild. */
  lemma ReasonAloneStays(pending: Pending)
    requires In(pending, PlayerRebuild).None?
    ensures Claim(pending).1.lichessReason == None
    ensures In(Claim(pending).0, LichessNext) == In(pending, LichessNext)
  {
    ClaimIsExact(pending, LichessNext);
    var k := FirstPending(pending, 0);
    if k < |PRIORITY| {
      RebuildIsTheSlot(k);
    }
  }

  lemma RebuildIsTheSlot(k: nat)
    requires k < |PRIORITY|
    ensures PRIORITY[k].1 == RebuildPlayers <==> PRIORITY[k].0 == PlayerRebuild
    ensures PRIORITY[k].0 != LichessNext
  {
  }
}
