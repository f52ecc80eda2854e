/** What the board does before it draws the main menu, and where the menu resumes. */
module MenuStep {
  import opened Outcomes
  import opened PendingWork

  datatype AppState = Menu | Game | Settings

  /** A level of a saved menu path: the menu and the selected index in it. */
  datatype Crumb = Crumb(token: string, index: int)
  type MenuPath = seq<Crumb>

  /** The screen shown, and where the menu was when a game was entered from it. */
  class Session {
    var state: AppState
    var menuRestorePath: Option<MenuPath>

    constructor ()
      ensures state == Menu && menuRestorePath == None
    {
      state, menuRestorePath := Menu, None;
    }

    /** Every screen takes its input from a menu or from the game, and none from both. */
    predicate ShowingMenu()
      reads this
      ensures ShowingMenu() <==> !InGame()
    {
      state == Menu || state == Settings
    }

    predicate InGame()
      reads this
    {
      state == Game
    }

    method CaptureMenuPath(path: MenuPath)
      modifies this`menuRestorePath
      ensures menuRestorePath == Some(path)
    {
      menuRestorePath := Some(path);
    }

    method TakeMenuPath() returns (path: Option<MenuPath>)
      modifies this`menuRestorePath
      ensures path == old(menuRestorePath) && menuRestorePath == None
    {
      path, menuRestorePath := menuRestorePath, None;
    }

    method ForgetMenuPath()
      modifies this`menuRestorePath
      ensures menuRestorePath == None
    {
      menuRestorePath := None;
    }
  }

  /** The screen to reopen once after a restart. */
  datatype Restore = Restore(toSettings: bool, settingsSubmenu: Option<string>, toPositions: bool)

  class StartupRestore {
    var value: Restore

    constructor (value: Restore)
      ensures this.value == value
    {
      this.value := value;
    }
  }

  datatype MenuAction = ShowMenu | ApplyBoardCommand | EnterGame | OpenSettings | OpenPositions

  datatype MenuStep = MenuStep(
    action: MenuAction,
    settingsSubmenu: Option<string>,
    atLastPosition: bool,
    restorePath: Option<MenuPath>,
    clientTransport: Option<string>)

  function Only(action: MenuAction): MenuStep {
    MenuStep(action, None, false, None, None)
  }

  const SETTINGS_MENU_TOKEN: string := "Settings"
  const POSITIONS_MENU_TOKEN: string := "Positions"

  /** The caller's map from a saved container to the Settings entry that reopens it. */
  type EntryMap = string -> Option<string>

  function PathHead(path: MenuPath): Option<string> {
    if path == [] then None else Some(path[0].token)
  }

  function Submenu(path: MenuPath, entries: EntryMap): Option<string> {
    if |path| > 1 then entries(path[1].token) else None
  }

  function PlanStartupRestore(saved: Option<MenuPath>, entries: EntryMap): Restore {
    var head := if saved.Some? then PathHead(saved.value) else None;
    if head == Some(SETTINGS_MENU_TOKEN) then Restore(true, Submenu(saved.value, entries), false)
    else if head == Some(POSITIONS_MENU_TOKEN) then Restore(false, None, true)
    else Restore(false, None, false)
  }

  function SuspendedMenuStep(path: MenuPath, entries: EntryMap): MenuStep {
    var head := PathHead(path);
    if head == Some(SETTINGS_MENU_TOKEN) then MenuStep(OpenSettings, Submenu(path, entries), false, Some(path), None)
    else if head == Some(POSITIONS_MENU_TOKEN) then MenuStep(OpenPositions, None, true, Some(path), None)
    else Only(ShowMenu)
  }

  // ---------------------------------------------------------------------
  // The seven conditions
  // ---------------------------------------------------------------------

  /** Everything a menu pass looks at. */
  datatype Board = Board(pending: Pending, queued: seq<PieceEvent>, restore: Restore, path: Option<MenuPath>)

  /** Highest first. */
  datatype Condition = Command | Client | Pieces | ToSettings | ToPositions | Suspended | Finished

  const RANKED: seq<Condition> := [Command, Client, Pieces, ToSettings, ToPositions, Suspended, Finished]

  predicate Waits(b: Board, c: Condition) {
    match c
    case Command => In(b.pending, BoardCommand).Some?
    case Client => In(b.pending, BleClient).Some?
    case Pieces => b.queued != []
    case ToSettings => b.restore.toSettings
    case ToPositions => b.restore.toPositions
    case Suspended => b.path.Some?
    case Finished => In(b.pending, PositionsMenuReturn).Some?
  }

  /** What the board does about a condition that waits. */
  function Answer(b: Board, c: Condition, entries: EntryMap): MenuStep
    requires Waits(b, c)
  {
    match c
    case Command => Only(ApplyBoardCommand)
    case Client => Only(EnterGame).(clientTransport := In(b.pending, BleClient).value.payload)
    case Pieces => Only(EnterGame)
    case ToSettings => Only(OpenSettings).(settingsSubmenu := b.restore.settingsSubmenu)
    case ToPositions => Only(OpenPositions)
    case Suspended => SuspendedMenuStep(b.path.value, entries)
    case Finished => Only(OpenPositions).(atLastPosition := true)
  }

  /** The board once the pass has claimed the condition. A board command and the queued
      piece events stay for the code that performs them. */
  function Claimed(b: Board, c: Condition): Board {
    match c
    case Command => b
    case Client => b.(pending := b.pending[BleClient := None])
    case Pieces => b
    case ToSettings => b.(restore := Restore(false, None, b.restore.toPositions))
    case ToPositions => b.(restore := b.restore.(toPositions := false))
    case Suspended => b.(path := None)
    case Finished => b.(pending := b.pending[PositionsMenuReturn := None])
  }

  /** The rank of the first condition that waits, from rank `i`. */
  function Top(b: Board, i: nat): (k: nat)
    requires i <= |RANKED|
    ensures i <= k <= |RANKED|
    ensures forall j | i <= j < k :: !Waits(b, RANKED[j])
    ensures k < |RANKED| ==> Waits(b, RANKED[k])
    decreases |RANKED| - i
  {
    if i == |RANKED| || Waits(b, RANKED[i]) then i else Top(b, i + 1)
  }

  /** The claim as the ranking states it. */
  function Claim(b: Board, entries: EntryMap): (Board, MenuStep) {
    var k := Top(b, 0);
    if k == |RANKED| then (b, Only(ShowMenu)) else (Claimed(b, RANKED[k]), Answer(b, RANKED[k], entries))
  }

  ghost function View(work: DeferredWork, session: Session, restore: StartupRestore): Board
    reads work.Slots(), work.pieceEvents, session, restore
  {
    Board(work.View(), work.pieceEvents.events, restore.value, session.menuRestorePath)
  }

  lemma FirstIs(b: Board, k: nat)
    requires k <= |RANKED| && (forall j | 0 <= j < k :: !Waits(b, RANKED[j])) && (k < |RANKED| ==> Waits(b, RANKED[k]))
    ensures Top(b, 0) == k
  {
  }

  /** Takes from a slot; a slot with nothing in it is left as it was. */
  method TakeFrom(work: DeferredWork, name: SlotName) returns (taken: Option<Request>)
    requires work.Valid()
    modifies work.Slots()
    ensures taken == In(old(work.View()), name)
    ensures work.View() == if taken.Some? then old(work.View())[name := None] else old(work.View())
  {
    ghost var before := work.View();
    assert name in work.slots;
    taken := work.Take(name);
    if taken.None? {
      assert before == before[name := None];
    }
  }

  /** The branches of the pass agree with the ranking. The session keeps its screen and
      the piece events stay queued. */
  method ClaimMenuStep(work: DeferredWork, session: Session, restore: StartupRestore, entries: EntryMap)
    returns (step: MenuStep)
    requires work.Valid()
    modifies work.Slots(), session`menuRestorePath, restore
    ensures (View(work, session, restore), step) == Claim(old(View(work, session, restore)), entries)
    ensures In(old(work.View()), BoardCommand).None? && In(old(work.View()), BleClient).Some? ==>
              step.action == EnterGame && step.clientTransport == In(old(work.View()), BleClient).value.payload
  {
    ghost var b := View(work, session, restore);
    var command := work.Requested(BoardCommand);
    if command {
      FirstIs(b, 0);
      return Only(ApplyBoardCommand);
    }
    var client := TakeFrom(work, BleClient);
    if client.Some? {
      FirstIs(b, 1);
      return Only(EnterGame).(clientTransport := client.value.payload);
    }
    if |work.pieceEvents.events| > 0 {
      FirstIs(b, 2);
      return Only(EnterGame);
    }
    assert View(work, session, restore) == b;
    assert !Waits(b, RANKED[0]) && !Waits(b, RANKED[1]) && !Waits(b, RANKED[2]);
    step := ClaimReopening(work, session, restore, entries);
  }

  /** The lower part of the pass, reached when neither a command nor anything that enters a
      game waits. */
  method ClaimReopening(work: DeferredWork, session: Session, restore: StartupRestore, entries: EntryMap)
    returns (step: MenuStep)
    requires work.Valid()
    requires Top(View(work, session, restore), 0) >= 3
    modifies work.Slots(), session`menuRestorePath, restore
    ensures (View(work, session, restore), step) == Claim(old(View(work, session, restore)), entries)
  {
    ghost var b := View(work, session, restore);
    if restore.value.toSettings {
      var submenu := restore.value.settingsSubmenu;
      restore.value := restore.value.(toSettings := false, settingsSubmenu := None);
      FirstIs(b, 3);
      return Only(OpenSettings).(settingsSubmenu := submenu);
    }
    if restore.value.toPositions {
      restore.value := restore.value.(toPositions := false);
      FirstIs(b, 4);
      return Only(OpenPositions);
    }
    assert View(work, session, restore) == b && !Waits(b, RANKED[3]) && !Waits(b, RANKED[4]);
    step := ClaimReturn(work, session, restore, entries);
  }

  /** The lowest part of the pass, reached when no restart waits either. */
  method ClaimReturn(work: DeferredWork, session: Session, ghost restore: StartupRestore, entries: EntryMap)
    returns (step: MenuStep)
    requires work.Valid()
    requires Top(View(work, session, restore), 0) >= 5
    modifies work.Slots(), session`menuRestorePath
    ensures (View(work, session, restore), step) == Claim(old(View(work, session, restore)), entries)
  {
    ghost var b := View(work, session, restore);
    var suspended := session.TakeMenuPath();
    if suspended.Some? {
      FirstIs(b, 5);
      return SuspendedMenuStep(suspended.value, entries);
    }
    var finished := TakeFrom(work, PositionsMenuReturn);
    if finished.Some? {
      FirstIs(b, 6);
      return Only(OpenPositions).(atLastPosition := true);
    }
    FirstIs(b, 7);
    return Only(ShowMenu);
  }

  // ---------------------------------------------------------------------
  // What a pass leaves
  // ---------------------------------------------------------------------

  /** The condition is as it was, with what it carries. */
  predicate Untouched(b: Board, after: Board, c: Condition, entries: EntryMap) {
    && Waits(after, c) == Waits(b, c)
    && (Waits(b, c) ==> Answer(after, c, entries) == Answer(b, c, entries))
  }

  /** A pass, condition by condition: what each makes the board do when nothing above it
      waits, what the step carries, and what is left waiting. */
  lemma ClaimByName(b: Board, entries: EntryMap)
    ensures Claim(b, entries) ==
            if In(b.pending, BoardCommand).Some? then
              (b, MenuStep(ApplyBoardCommand, None, false, None, None))
            else if In(b.pending, BleClient).Some? then
              (b.(pending := b.pending[BleClient := None]),
               MenuStep(EnterGame, None, false, None, In(b.pending, BleClient).value.payload))
            else if b.queued != [] then
              (b, MenuStep(EnterGame, None, false, None, None))
            else if b.restore.toSettings then
              (b.(restore := Restore(false, None, b.restore.toPositions)),
               MenuStep(OpenSettings, b.restore.settingsSubmenu, false, None, None))
            else if b.restore.toPositions then
              (b.(restore := Restore(b.restore.toSettings, b.restore.settingsSubmenu, false)),
               MenuStep(OpenPositions, None, false, None, None))
            else if b.path.Some? then
              (b.(path := None), Reopened(b.path.value, entries))
            else if In(b.pending, PositionsMenuReturn).Some? then
              (b.(pending := b.pending[PositionsMenuReturn := None]),
               MenuStep(OpenPositions, None, true, None, None))
            else
              (b, MenuStep(ShowMenu, None, false, None, None))
  {
    var k := Top(b, 0);
    assert forall j | 0 <= j < k :: !Waits(b, RANKED[j]);
    TokensDiffer();
    if k == |RANKED| {
      assert !Waits(b, RANKED[0]) && !Waits(b, RANKED[1]) && !Waits(b, RANKED[2]) && !Waits(b, RANKED[3]);
      assert !Waits(b, RANKED[4]) && !Waits(b, RANKED[5]) && !Waits(b, RANKED[6]);
    }
  }

  /** The step from a saved path, on the menus it names. */
  function Reopened(path: MenuPath, entries: EntryMap): MenuStep {
    if path == [] then
      MenuStep(ShowMenu, None, false, None, None)
    else if path[0].token == "Settings" then
      MenuStep(OpenSettings, if |path| > 1 then entries(path[1].token) else None, false, Some(path), None)
    else if path[0].token == "Positions" then
      MenuStep(OpenPositions, None, true, Some(path), None)
    else
      MenuStep(ShowMenu, None, false, None, None)
  }

  /** What a restart reopens, on the menus the saved path names. */
  lemma RestoreByName(saved: Option<MenuPath>, entries: EntryMap)
    ensures PlanStartupRestore(saved, entries) ==
            if saved.None? || saved.value == [] then Restore(false, None, false)
            else if saved.value[0].token == "Settings" then
              Restore(true, if |saved.value| > 1 then entries(saved.value[1].token) else None, false)
            else Restore(false, None, saved.value[0].token == "Positions")
  {
    TokensDiffer();
  }

  lemma TokensDiffer()
    ensures SETTINGS_MENU_TOKEN != POSITIONS_MENU_TOKEN
  {
    assert SETTINGS_MENU_TOKEN[0] != POSITIONS_MENU_TOKEN[0];
  }

  /** A pass touches the condition it acts on and no other, and no slot that is not a
      menu condition; the condition it acts on is consumed, unless it is a board command
      or queued piece events, which are still there afterwards. */
  lemma PassTouchesOne(b: Board, c: Condition, entries: EntryMap)
    ensures Top(b, 0) < |RANKED| && c != RANKED[Top(b, 0)] ==> Untouched(b, Claim(b, entries).0, c, entries)
    ensures Top(b, 0) < |RANKED| && c == RANKED[Top(b, 0)] ==>
            (Waits(Claim(b, entries).0, c) <==> c == Command || c == Pieces)
    ensures Top(b, 0) == |RANKED| ==> Claim(b, entries) == (b, Only(ShowMenu))
    ensures forall name | name != BleClient && name != PositionsMenuReturn ::
              In(Claim(b, entries).0.pending, name) == In(b.pending, name)
  {
  }

  /** The main menu is drawn if and only if nothing waits, or the first thing that waits
      is a saved path that names neither screen. Such a path is consumed. */
  lemma MenuShownIff(b: Board, entries: EntryMap)
    ensures Claim(b, entries).1.action == ShowMenu <==>
            || Top(b, 0) == |RANKED|
            || (RANKED[Top(b, 0)] == Suspended
                && PathHead(b.path.value) != Some(SETTINGS_MENU_TOKEN)
                && PathHead(b.path.value) != Some(POSITIONS_MENU_TOKEN))
  {
  }

  /** A finished position game below an empty saved path still waits while the menu is
      drawn, so a drawn menu does not mean that nothing is waiting. */
  lemma MenuShownWhileFinishedWaits(entries: EntryMap)
    ensures var b := Board(map[PositionsMenuReturn := Some(Work(None))], [], Restore(false, None, false), Some([]));
            && Claim(b, entries).1 == Only(ShowMenu)
            && Waits(Claim(b, entries).0, Finished)
  {
    var b := Board(map[PositionsMenuReturn := Some(Work(None))], [], Restore(false, None, false), Some([]));
    FirstIs(b, 5);
  }

  /** The caller applies a board command by taking it, and a game it enters drains the
      piece events. */
  function Serviced(b: Board, action: MenuAction): Board {
    if action == ApplyBoardCommand then b.(pending := b.pending[BoardCommand := None])
    else if action == EnterGame then b.(queued := [])
    else b
  }

  /** The board after a pass and its servicing: the condition acted on is gone, and so are
      the queued events when it was a client; the others are as they were. */
  lemma PassAdvances(b: Board, j: nat, entries: EntryMap)
    requires Top(b, 0) < |RANKED| && j < |RANKED|
    ensures var k := Top(b, 0);
            var (left, step) := Claim(b, entries);
            var after := Serviced(left, step.action);
            if j <= k || (RANKED[k] == Client && RANKED[j] == Pieces) then !Waits(after, RANKED[j])
            else Untouched(b, after, RANKED[j], entries)
  {
    PassTouchesOne(b, RANKED[j], entries);
  }

  function Next(b: Board, entries: EntryMap): Board {
    Serviced(Claim(b, entries).0, Claim(b, entries).1.action)
  }

  lemma TopAdvances(b: Board, entries: EntryMap)
    requires Top(b, 0) < |RANKED|
    ensures Top(Next(b, entries), 0) > Top(b, 0)
  {
    var after := Next(b, entries);
    if Top(after, 0) < |RANKED| {
      PassAdvances(b, Top(after, 0), entries);
    }
  }

  /** The steps of one pass after another, with no new requests, until nothing waits. */
  function Passes(b: Board, entries: EntryMap): seq<MenuStep>
    decreases |RANKED| - Top(b, 0)
  {
    if Top(b, 0) == |RANKED| then []
    else
      TopAdvances(b, entries);
      [Claim(b, entries).1] + Passes(Next(b, entries), entries)
  }

  /** The answers to the conditions that wait, in rank order; queued piece events need
      none of their own when a client waits too, since its game drains them. */
  function Answers(b: Board, i: nat, drained: bool, entries: EntryMap): seq<MenuStep>
    requires i <= |RANKED|
    decreases |RANKED| - i
  {
    if i == |RANKED| then []
    else
      var c := RANKED[i];
      (if Waits(b, c) && !(c == Pieces && drained) then [Answer(b, c, entries)] else [])
      + Answers(b, i + 1, drained || (c == Client && Waits(b, c)), entries)
  }

  lemma {:induction false} AnswersSkip(b: Board, i: nat, k: nat, entries: EntryMap)
    requires i <= k <= |RANKED| && forall j | i <= j < k :: !Waits(b, RANKED[j])
    ensures Answers(b, i, false, entries) == Answers(b, k, false, entries)
    decreases k - i
  {
    if i < k {
      AnswersSkip(b, i + 1, k, entries);
    }
  }

  lemma {:induction false} AnswersFrom(a: Board, b: Board, i: nat, drainedA: bool, drainedB: bool, entries: EntryMap)
    requires i <= |RANKED|
    requires drainedA == drainedB || (drainedB && i >= 2 && !Waits(a, Pieces))
    requires forall j | i <= j < |RANKED| :: (drainedB && RANKED[j] == Pieces) || Untouched(b, a, RANKED[j], entries)
    ensures Answers(a, i, drainedA, entries) == Answers(b, i, drainedB, entries)
    decreases |RANKED| - i
  {
    if i < |RANKED| {
      var c := RANKED[i];
      var nextA, nextB := drainedA || (c == Client && Waits(a, c)), drainedB || (c == Client && Waits(b, c));
      AnswersFrom(a, b, i + 1, nextA, nextB, entries);
    }
  }

  /** Any set of waiting conditions is answered in rank order, each once with what it
      carries, and then nothing waits. */
  lemma {:induction false} ServedInRankOrder(b: Board, entries: EntryMap)
    ensures Passes(b, entries) == Answers(b, 0, false, entries)
    decreases |RANKED| - Top(b, 0)
  {
    var k := Top(b, 0);
    AnswersSkip(b, 0, k, entries);
    if k < |RANKED| {
      TopAdvances(b, entries);
      var after := Next(b, entries);
      ServedInRankOrder(after, entries);
      forall j | 0 <= j < |RANKED|
        ensures if j <= k || (RANKED[k] == Client && RANKED[j] == Pieces) then !Waits(after, RANKED[j])
                else Untouched(b, after, RANKED[j], entries)
      {
        PassAdvances(b, j, entries);
      }
      AnswersSkip(after, 0, k + 1, entries);
      AnswersFrom(after, b, k + 1, false, RANKED[k] == Client, entries);
    }
  }

  // ---------------------------------------------------------------------
  // Where a restart and a suspended game reopen
  // ---------------------------------------------------------------------

  /** A restart and a suspended game agree on the screen a saved path names and on the
      Settings entry in it. They differ in two things: the suspended game returns to its
      position and carries the path, the restart opens the list. */
  lemma RestartAgreesWithSuspension(path: MenuPath, entries: EntryMap)
    ensures var restored := Board(map[], [], PlanStartupRestore(Some(path), entries), None);
            var suspended := Board(map[], [], Restore(false, None, false), Some(path));
            var (_, a) := Claim(restored, entries);
            var (_, z) := Claim(suspended, entries);
            && a.action == z.action && a.settingsSubmenu == z.settingsSubmenu
            && a.restorePath == None && !a.atLastPosition
            && (z.restorePath == Some(path) <==> z.action != ShowMenu)
            && (z.atLastPosition <==> z.action == OpenPositions)
  {
    var restored := Board(map[], [], PlanStartupRestore(Some(path), entries), None);
    var suspended := Board(map[], [], Restore(false, None, false), Some(path));
    FirstIs(suspended, 5);
    FirstIs(restored, if restored.restore.toSettings then 3 else if restored.restore.toPositions then 4 else 7);
  }

  /** A restore asks for one screen at most, and the pass that opens it leaves a restore
      that asks for none. */
  lemma RestoreIsOneShot(saved: Option<MenuPath>, entries: EntryMap, b: Board)
    requires b.restore == PlanStartupRestore(saved, entries)
    requires Top(b, 0) == 3 || Top(b, 0) == 4
    ensures Claim(b, entries).0.restore == Restore(false, None, false)
  {
  }
}
