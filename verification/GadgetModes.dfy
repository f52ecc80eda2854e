/** What the commands of a document do to the board that runs them. */
module GadgetModes {
  import opened Outcomes
  import opened Text
  import opened SequenceBlock
  import opened DocumentLines
  import opened WriteFiles
  import opened ModeCommands
  import opened ModePinning
  import opened UserDataRuns
  import opened RepeatedRuns
  import opened RunOutcome
  import opened PinExactness
  import opened UserData

  // ---------------------------------------------------------------------
  // The commands, by their text
  // ---------------------------------------------------------------------

  /** A NetworkManager profile: whether it comes up by itself, and whether it is up. */
  datatype Profile = Profile(auto: bool, up: bool)

  /** The vendor's watcher, which moves the gadget between the two profiles, and the profiles. */
  datatype Gadget = Gadget(watching: bool, client: Profile, shared: Profile)

  function Set(setting: bool, command: string, on: string, off: string): bool {
    if command == on then true else if command == off then false else setting
  }

  function Obeys(profile: Profile, name: string, command: string): Profile {
    Profile(Set(profile.auto, command,
                "nmcli connection modify \"" + name + "\" connection.autoconnect yes || true",
                "nmcli connection modify \"" + name + "\" connection.autoconnect no || true"),
            Set(profile.up, command,
                "nmcli connection up \"" + name + "\" || true",
                "nmcli connection down \"" + name + "\" || true"))
  }

  /** One command run on the board; any other leaves the gadget alone. */
  function Does(g: Gadget, command: string): Gadget {
    Gadget(Set(g.watching, command,
               "systemctl enable --now " + "rpi-usb-gadget-ics.service" + " || true",
               "systemctl disable --now " + "rpi-usb-gadget-ics.service" + " || true"),
           Obeys(g.client, "USB Gadget (client)", command),
           Obeys(g.shared, "USB Gadget (shared)", command))
  }

  function Runs(g: Gadget, commands: seq<string>): Gadget
    decreases |commands|
  {
    if commands == [] then g else Runs(Does(g, commands[0]), commands[1..])
  }

  /** What each mode means for the board. */
  function Settled(g: Gadget, mode: Mode): Gadget {
    match mode
    case Client => Gadget(false, Profile(true, true), Profile(false, false))
    case Shared => Gadget(false, Profile(false, false), Profile(true, true))
    case Auto => Gadget(true, g.client, g.shared)
  }

  /** The board is in the mode. */
  predicate InMode(g: Gadget, mode: Mode) {
    match mode
    case Client => g == Gadget(false, Profile(true, true), Profile(false, false))
    case Shared => g == Gadget(false, Profile(false, false), Profile(true, true))
    case Auto => g.watching
  }

  // ---------------------------------------------------------------------
  // One setting at a time
  // ---------------------------------------------------------------------

  /** A setting after the commands. */
  function After(setting: bool, commands: seq<string>, on: string, off: string): bool
    decreases |commands|
  {
    if commands == [] then setting else After(Set(setting, commands[0], on, off), commands[1..], on, off)
  }

  lemma {:induction false} Held(setting: bool, commands: seq<string>, on: string, off: string)
    requires on != off
    ensures off !in commands ==> After(setting, commands, on, off) == (setting || on in commands)
    ensures on !in commands ==> After(setting, commands, on, off) == (setting && off !in commands)
    decreases |commands|
  {
    if commands != [] {
      assert commands == [commands[0]] + commands[1..];
      Held(Set(setting, commands[0], on, off), commands[1..], on, off);
    }
  }

  function ProfileAfter(profile: Profile, commands: seq<string>, name: Line): Profile {
    Profile(After(profile.auto, commands, Autoconnect(name, "yes"), Autoconnect(name, "no")),
            After(profile.up, commands, Activate(name, "up"), Activate(name, "down")))
  }

  lemma ProfileTexts(name: Line)
    ensures Autoconnect(name, "yes") == "nmcli connection modify \"" + name + "\" connection.autoconnect yes || true"
    ensures Autoconnect(name, "no") == "nmcli connection modify \"" + name + "\" connection.autoconnect no || true"
    ensures Activate(name, "up") == "nmcli connection up \"" + name + "\" || true"
    ensures Activate(name, "down") == "nmcli connection down \"" + name + "\" || true"
  {
    AutoText(name, "yes", "\" connection.autoconnect yes || true");
    AutoText(name, "no", "\" connection.autoconnect no || true");
    ActiveText(name, "up", "nmcli connection up \"");
    ActiveText(name, "down", "nmcli connection down \"");
  }

  lemma AutoText(name: Line, value: Line, tail: string)
    requires tail == "\" connection.autoconnect " + value + " || true"
    ensures Autoconnect(name, value) == "nmcli connection modify \"" + name + tail
  {
  }

  lemma ActiveText(name: Line, verb: Line, start: string)
    requires start == "nmcli connection " + verb + " \""
    ensures Activate(name, verb) == start + name + "\" || true"
  {
  }

  lemma {:induction false} RunsBySetting(g: Gadget, commands: seq<string>)
    ensures Runs(g, commands) ==
            Gadget(After(g.watching, commands, StartWatcher(), StopWatcher()),
                   ProfileAfter(g.client, commands, CLIENT_CONN), ProfileAfter(g.shared, commands, SHARED_CONN))
    decreases |commands|
  {
    if commands != [] {
      ProfileTexts(CLIENT_CONN);
      ProfileTexts(SHARED_CONN);
      RunsBySetting(Does(g, commands[0]), commands[1..]);
    }
  }

  // ---------------------------------------------------------------------
  // The lists of the modes
  // ---------------------------------------------------------------------

  /** No command of another mode, but for those that this mode shares. */
  predicate NoneSuperseded(commands: seq<string>, mode: Mode) {
    forall c | c in AllModeCommands() && c !in Wanted(mode) :: c !in commands
  }

  predicate AllWanted(commands: seq<string>, mode: Mode) {
    forall c | c in Wanted(mode) :: c in commands
  }

  lemma PairsDiffer(name: Line)
    ensures Autoconnect(name, "yes") != Autoconnect(name, "no") && Activate(name, "up") != Activate(name, "down")
    ensures StartWatcher() != StopWatcher()
  {
    CommandsDiffer();
  }

  lemma NotSharedWith(before: Mode, after: Mode, k: nat)
    requires before != after && 0 < k < |Wanted(before)|
    ensures Wanted(before)[k] in AllModeCommands() && Wanted(before)[k] !in Wanted(after)
  {
    OnlyTheFirstOf(before, after);
    assert Wanted(before)[k] in Wanted(before);
  }

  lemma WatcherApart(mode: Mode)
    ensures StartWatcher() in AllModeCommands() && StopWatcher() in AllModeCommands()
    ensures mode == Auto ==> StopWatcher() !in Wanted(mode)
    ensures mode != Auto ==> StartWatcher() !in Wanted(mode)
  {
    Lengths();
    OnlyTheFirstOf(Auto, mode);
    assert StartWatcher() == Wanted(Auto)[0] && StartWatcher() in Wanted(Auto);
    assert StopWatcher() == Wanted(Client)[0] && StopWatcher() in Wanted(Client);
  }

  /** The commands that set a profile up, and the commands that set it down. */
  predicate SetsUp(commands: seq<string>, name: Line) {
    Autoconnect(name, "yes") in commands && Activate(name, "up") in commands
  }

  predicate SetsDown(commands: seq<string>, name: Line) {
    Autoconnect(name, "no") in commands && Activate(name, "down") in commands
  }

  predicate NeverUp(commands: seq<string>, name: Line) {
    Autoconnect(name, "yes") !in commands && Activate(name, "up") !in commands
  }

  predicate NeverDown(commands: seq<string>, name: Line) {
    Autoconnect(name, "no") !in commands && Activate(name, "down") !in commands
  }

  lemma ClientLists(commands: seq<string>)
    requires NoneSuperseded(commands, Client)
    ensures StartWatcher() !in commands && NeverDown(commands, CLIENT_CONN) && NeverUp(commands, SHARED_CONN)
    ensures AllWanted(commands, Client) <==>
            StopWatcher() in commands && SetsUp(commands, CLIENT_CONN) && SetsDown(commands, SHARED_CONN)
  {
    WatcherApart(Client);
    NotSharedWith(Shared, Client, 1);
    NotSharedWith(Shared, Client, 2);
    NotSharedWith(Shared, Client, 3);
    NotSharedWith(Shared, Client, 4);
    InList(Wanted(Client));
  }

  lemma SharedLists(commands: seq<string>)
    requires NoneSuperseded(commands, Shared)
    ensures StartWatcher() !in commands && NeverDown(commands, SHARED_CONN) && NeverUp(commands, CLIENT_CONN)
    ensures AllWanted(commands, Shared) <==>
            StopWatcher() in commands && SetsUp(commands, SHARED_CONN) && SetsDown(commands, CLIENT_CONN)
  {
    WatcherApart(Shared);
    NotSharedWith(Client, Shared, 1);
    NotSharedWith(Client, Shared, 2);
    NotSharedWith(Client, Shared, 3);
    NotSharedWith(Client, Shared, 4);
    InList(Wanted(Shared));
  }

  lemma InList(list: seq<Line>)
    requires |list| == 5
    ensures forall c :: c in list <==> c == list[0] || c == list[1] || c == list[2] || c == list[3] || c == list[4]
  {
  }

  lemma AutoLists(commands: seq<string>)
    requires NoneSuperseded(commands, Auto)
    ensures StopWatcher() !in commands
    ensures NeverUp(commands, CLIENT_CONN) && NeverDown(commands, CLIENT_CONN)
    ensures NeverUp(commands, SHARED_CONN) && NeverDown(commands, SHARED_CONN)
    ensures AllWanted(commands, Auto) <==> StartWatcher() in commands
  {
    WatcherApart(Auto);
    forall k | 0 < k < 5 ensures Wanted(Client)[k] !in commands && Wanted(Shared)[k] !in commands {
      NotSharedWith(Client, Auto, k);
      NotSharedWith(Shared, Auto, k);
    }
    assert Wanted(Client)[1] !in commands && Wanted(Client)[2] !in commands;
    assert Wanted(Client)[3] !in commands && Wanted(Client)[4] !in commands;
    assert Wanted(Shared)[1] !in commands && Wanted(Shared)[2] !in commands;
    assert Wanted(Shared)[3] !in commands && Wanted(Shared)[4] !in commands;
  }

  lemma ProfileHeld(profile: Profile, commands: seq<string>, name: Line)
    ensures NeverDown(commands, name) ==>
              ProfileAfter(profile, commands, name) ==
              Profile(profile.auto || Autoconnect(name, "yes") in commands,
                      profile.up || Activate(name, "up") in commands)
    ensures NeverUp(commands, name) ==>
              ProfileAfter(profile, commands, name) ==
              Profile(profile.auto && Autoconnect(name, "no") !in commands,
                      profile.up && Activate(name, "down") !in commands)
    ensures NeverDown(commands, name) && NeverUp(commands, name) ==> ProfileAfter(profile, commands, name) == profile
  {
    PairsDiffer(name);
    Held(profile.auto, commands, Autoconnect(name, "yes"), Autoconnect(name, "no"));
    Held(profile.up, commands, Activate(name, "up"), Activate(name, "down"));
  }

  /** The gadget that a mode changes most. */
  function Opposite(mode: Mode): Gadget {
    match mode
    case Client => Gadget(true, Profile(false, false), Profile(true, true))
    case Shared => Gadget(true, Profile(true, true), Profile(false, false))
    case Auto => Gadget(false, Profile(false, false), Profile(false, false))
  }

  lemma SettlesFrom(g: Gadget, commands: seq<string>, mode: Mode)
    requires NoneSuperseded(commands, mode)
    ensures AllWanted(commands, mode) ==> Runs(g, commands) == Settled(g, mode)
    ensures InMode(Settled(g, mode), mode)
    ensures g == Opposite(mode) && InMode(Runs(g, commands), mode) ==> AllWanted(commands, mode)
  {
    RunsBySetting(g, commands);
    PairsDiffer(CLIENT_CONN);
    Held(g.watching, commands, StartWatcher(), StopWatcher());
    ProfileHeld(g.client, commands, CLIENT_CONN);
    ProfileHeld(g.shared, commands, SHARED_CONN);
    match mode
    case Client => ClientLists(commands);
    case Shared => SharedLists(commands);
    case Auto => AutoLists(commands);
  }

  /** The board reaches a mode from whatever it was in. */
  ghost predicate Reaches(commands: seq<string>, mode: Mode) {
    forall g: Gadget :: Runs(g, commands) == Settled(g, mode)
  }

  /** Commands of no other mode bring the board into a mode from every start, in whatever
      order they stand and whatever stands between them, if and only if none is missing. */
  lemma ReachesIff(commands: seq<string>, mode: Mode)
    requires NoneSuperseded(commands, mode)
    ensures Reaches(commands, mode) <==> AllWanted(commands, mode)
  {
    forall g: Gadget ensures AllWanted(commands, mode) ==> Runs(g, commands) == Settled(g, mode) {
      SettlesFrom(g, commands, mode);
    }
    SettlesFrom(Opposite(mode), commands, mode);
  }

  /** What each mode's list does. Client stops the watcher, and leaves the client profile
      coming up by itself and up, the shared one neither; Shared is its mirror image; Auto
      starts the watcher and leaves both profiles as they were. */
  lemma ListReachesMode(mode: Mode)
    ensures Reaches(Wanted(mode), mode)
  {
    assert NoneSuperseded(Wanted(mode), mode) && AllWanted(Wanted(mode), mode);
    ReachesIff(Wanted(mode), mode);
  }

  /** The enabling command, by its text. */
  lemma EnablingText()
    ensures GADGET_RUNCMD == "command -v rpi-usb-gadget >/dev/null 2>&1" + " && rpi-usb-gadget on -f || true"
  {
  }

  // ---------------------------------------------------------------------
  // The items of a block
  // ---------------------------------------------------------------------

  /** The commands that the lines of a block list, in order. */
  function Commands(block: seq<Line>): seq<string> {
    if block == [] then []
    else
      var text := Strip(block[0]);
      (if "- " <= text then [text[2..]] else []) + Commands(block[1..])
  }

  lemma {:induction false} CommandsHold(block: seq<Line>, command: Line)
    ensures command in Commands(block) <==> HasLine(block, "- " + command)
  {
    if block != [] {
      CommandsHold(block[1..], command);
      assert block == [block[0]] + block[1..];
      HasLineConcat([block[0]], block[1..], "- " + command);
      HasOne(block[0], "- " + command);
      var text := Strip(block[0]);
      assert "- " <= text ==> text == "- " + text[2..];
      assert ("- " + command)[2..] == command;
    }
  }

  /** No line of the document that reads as a command of the mode stands outside the block
      unless one stands in it. */
  predicate InBlockIfAnywhere(block: seq<Line>, seen: seq<Line>, mode: Mode) {
    forall i | 0 <= i < |Wanted(mode)| ::
      HasLine(seen, "- " + Wanted(mode)[i]) ==> HasLine(block, "- " + Wanted(mode)[i])
  }

  lemma PinnedHolds(lines: seq<Line>, mode: Mode, command: Line)
    requires PinMode(lines, mode).Ok? && command in AllModeCommands()
    ensures command in Commands(Block(PinMode(lines, mode).value)) <==>
            command in Wanted(mode) && (HasLine(Block(lines), "- " + command) || !HasLine(lines, "- " + command))
  {
    var after := PinMode(lines, mode).value;
    PinModeCounts(lines, mode, command);
    CountHas(Block(after), "- " + command);
    CountHas(Block(lines), "- " + command);
    CountHas(lines, "- " + command);
    CommandsHold(Block(after), command);
  }

  lemma WantedAreModeCommands(mode: Mode)
    ensures forall c | c in Wanted(mode) :: c in AllModeCommands()
  {
  }

  lemma AllWantedIff(commands: seq<string>, block: seq<Line>, seen: seq<Line>, mode: Mode)
    requires forall c | c in Wanted(mode) ::
               c in commands <==> HasLine(block, "- " + c) || !HasLine(seen, "- " + c)
    ensures AllWanted(commands, mode) <==> InBlockIfAnywhere(block, seen, mode)
  {
    if InBlockIfAnywhere(block, seen, mode) {
      forall c | c in Wanted(mode) ensures c in commands {
        var i :| 0 <= i < |Wanted(mode)| && Wanted(mode)[i] == c;
      }
    }
  }

  /** What pinning does to the board. On every document that is not refused, the commands of
      the pinned block bring the board into the chosen mode from every start if and only if
      the document held none of the mode's commands outside its block alone. */
  lemma PinReachesModeIff(lines: seq<Line>, mode: Mode)
    requires !Find(lines, RUNCMD).Flow?
    ensures PinMode(lines, mode).Ok?
    ensures Reaches(Commands(Block(PinMode(lines, mode).value)), mode) <==>
            InBlockIfAnywhere(Block(lines), lines, mode)
  {
    AllAccepted(lines, mode);
    WantedAreModeCommands(mode);
    var commands := Commands(Block(PinMode(lines, mode).value));
    forall c | c in AllModeCommands()
      ensures c in commands <==>
              c in Wanted(mode) && (HasLine(Block(lines), "- " + c) || !HasLine(lines, "- " + c))
    {
      PinnedHolds(lines, mode, c);
    }
    ReachesIff(commands, mode);
    AllWantedIff(commands, Block(lines), lines, mode);
  }

  // ---------------------------------------------------------------------
  // What the board boots into
  // ---------------------------------------------------------------------

  /** The enabling command runs the vendor's script, which sets the gadget as it sees fit. */
  function Boots(g: Gadget, commands: seq<string>, enabling: Gadget -> Gadget): Gadget
    decreases |commands|
  {
    if commands == [] then g
    else Boots(if commands[0] == GADGET_RUNCMD then enabling(g) else Does(g, commands[0]), commands[1..], enabling)
  }

  /** Whatever the board was in, and whatever the vendor's script makes of it. */
  ghost predicate BootsInto(commands: seq<string>, mode: Mode) {
    forall g: Gadget, enabling: Gadget -> Gadget :: InMode(Boots(g, commands, enabling), mode)
  }

  /** The commands behind the last enabling one. */
  function AfterEnabling(commands: seq<string>): seq<string> {
    if commands == [] then []
    else if GADGET_RUNCMD in commands[1..] then AfterEnabling(commands[1..])
    else if commands[0] == GADGET_RUNCMD then commands[1..]
    else commands
  }

  lemma {:induction false} NeverEnabling(g: Gadget, commands: seq<string>, enabling: Gadget -> Gadget)
    requires GADGET_RUNCMD !in commands
    ensures Boots(g, commands, enabling) == Runs(g, commands)
    decreases |commands|
  {
    if commands != [] {
      NeverEnabling(Does(g, commands[0]), commands[1..], enabling);
    }
  }

  lemma {:induction false} AfterOne(g: Gadget, commands: seq<string>, enabling: Gadget -> Gadget)
    returns (before: Gadget)
    requires GADGET_RUNCMD in commands
    ensures Boots(g, commands, enabling) == Runs(enabling(before), AfterEnabling(commands))
    decreases |commands|
  {
    assert commands == [commands[0]] + commands[1..];
    before := g;
    if GADGET_RUNCMD in commands[1..] {
      var next := if commands[0] == GADGET_RUNCMD then enabling(g) else Does(g, commands[0]);
      before := AfterOne(next, commands[1..], enabling);
    } else {
      NeverEnabling(enabling(g), commands[1..], enabling);
    }
  }

  lemma AfterNone(commands: seq<string>)
    ensures forall c | c in AfterEnabling(commands) :: c in commands
    ensures GADGET_RUNCMD !in commands ==> AfterEnabling(commands) == commands
    decreases |commands|
  {
    if commands != [] {
      AfterNone(commands[1..]);
      assert commands == [commands[0]] + commands[1..];
    }
  }

  lemma BootsAfter(g: Gadget, commands: seq<string>, enabling: Gadget -> Gadget) returns (h: Gadget)
    ensures Boots(g, commands, enabling) == Runs(h, AfterEnabling(commands))
    ensures (forall x :: enabling(x) == g) ==> h == g
  {
    if GADGET_RUNCMD in commands {
      var before := AfterOne(g, commands, enabling);
      h := enabling(before);
    } else {
      NeverEnabling(g, commands, enabling);
      AfterNone(commands);
      h := g;
    }
  }

  /** With no superseded command left, a boot reaches the mode from every start and with
      every vendor's script if and only if each wanted command stands behind the last
      enabling one. */
  lemma BootsIntoIff(commands: seq<string>, mode: Mode)
    requires NoneSuperseded(commands, mode)
    ensures BootsInto(commands, mode) <==> AllWanted(AfterEnabling(commands), mode)
  {
    var last := AfterEnabling(commands);
    AfterNone(commands);
    forall g: Gadget, enabling: Gadget -> Gadget
      ensures AllWanted(last, mode) ==> InMode(Boots(g, commands, enabling), mode)
    {
      var h := BootsAfter(g, commands, enabling);
      SettlesFrom(h, last, mode);
    }
    var start := Opposite(mode);
    var script := (x: Gadget) => start;
    var h := BootsAfter(start, commands, script);
    SettlesFrom(start, last, mode);
    assert BootsInto(commands, mode) ==> InMode(Boots(start, commands, script), mode);
  }

  // ---------------------------------------------------------------------
  // The block a run leaves
  // ---------------------------------------------------------------------

  lemma {:induction false} CommandsConcat(a: seq<Line>, b: seq<Line>)
    ensures Commands(a + b) == Commands(a) + Commands(b)
  {
    if a == [] {
      assert a + b == b;
    } else {
      assert (a + b)[1..] == a[1..] + b;
      CommandsConcat(a[1..], b);
    }
  }

  lemma {:induction false} CommandsOfItems(indent: Line, commands: seq<Line>)
    requires Blank(indent) && AllProper(commands)
    ensures Commands(Items(indent, commands)) == commands
  {
    if commands != [] {
      ItemFacts(indent, commands[0]);
      assert ("- " + commands[0])[2..] == commands[0];
      assert Items(indent, commands)[1..] == Items(indent, commands[1..]);
      CommandsOfItems(indent, commands[1..]);
      assert commands == [commands[0]] + commands[1..];
    }
  }

  lemma {:induction false} CommandsOfBlanks(lines: seq<Line>)
    requires AllBlank(lines)
    ensures Commands(lines) == []
  {
    if lines != [] {
      BlankStrip(lines[0]);
      CommandsOfBlanks(lines[1..]);
    }
  }

  lemma CommandsOfCore(lines: seq<Line>)
    ensures Commands(TrimBlank(lines)) == Commands(lines)
  {
    var core := TrimBlank(lines);
    assert lines == core + lines[|core|..];
    CommandsConcat(core, lines[|core|..]);
    CommandsOfBlanks(lines[|core|..]);
  }

  lemma {:induction false} AfterConcat(a: seq<string>, b: seq<string>)
    requires GADGET_RUNCMD !in b
    ensures AfterEnabling(a + b) == AfterEnabling(a) + b
    decreases |a|
  {
    if a == [] {
      assert a + b == b;
      AfterNone(b);
    } else {
      assert (a + b)[1..] == a[1..] + b;
      AfterConcat(a[1..], b);
    }
  }

  lemma AfterCons(first: string, others: seq<string>)
    ensures AfterEnabling([first] + others) ==
            if GADGET_RUNCMD in others then AfterEnabling(others)
            else if first == GADGET_RUNCMD then others else [first] + others
  {
    assert ([first] + others)[1..] == others;
  }

  /** The same command stands behind the last enabling one in both. */
  predicate Alike(a: seq<string>, b: seq<string>, command: string) {
    && (command in AfterEnabling(a) <==> command in AfterEnabling(b))
    && (GADGET_RUNCMD in a <==> GADGET_RUNCMD in b)
    && (command in a <==> command in b)
  }

  lemma AlikeCons(first: string, a: seq<string>, b: seq<string>, command: string)
    requires Alike(a, b, command)
    ensures Alike([first] + a, [first] + b, command)
    ensures first != command && first != GADGET_RUNCMD ==> Alike([first] + a, b, command)
  {
    AfterCons(first, a);
    AfterCons(first, b);
    AfterNone(b);
  }

  lemma CommandsCons(line: Line, others: seq<Line>)
    ensures "- " <= Strip(line) ==> Commands([line] + others) == [Strip(line)[2..]] + Commands(others)
    ensures !("- " <= Strip(line)) ==> Commands([line] + others) == Commands(others)
  {
    assert ([line] + others)[1..] == others;
  }

  lemma DroppedText(text: string, superseded: set<Line>)
    requires text in AsItems(superseded)
    ensures "- " <= text && text[2..] in superseded
  {
    var c :| c in superseded && text == "- " + c;
    assert text[2..] == c;
  }

  /** A drop keeps what stands behind the last enabling command. */
  lemma {:induction false} AfterWithout(block: seq<Line>, superseded: set<Line>, command: Line)
    requires GADGET_RUNCMD !in superseded && command !in superseded
    ensures Alike(Commands(block), Commands(Without(block, AsItems(superseded))), command)
  {
    if block != [] {
      var unwanted, others := AsItems(superseded), block[1..];
      var left := Without(others, unwanted);
      AfterWithout(others, superseded, command);
      assert block == [block[0]] + others;
      var text := Strip(block[0]);
      CommandsCons(block[0], others);
      CommandsCons(block[0], left);
      if "- " <= text {
        AlikeCons(text[2..], Commands(others), Commands(left), command);
      }
      if text in unwanted {
        DroppedText(text, superseded);
        assert Without(block, unwanted) == left;
      } else {
        assert Without(block, unwanted) == [block[0]] + left;
      }
    }
  }

  lemma OneCommand(indent: Line, command: Line)
    requires Blank(indent) && Proper(command)
    ensures Commands([Item(indent, command)]) == [command]
  {
    assert [command][1..] == [];
    assert Items(indent, [command]) == [Item(indent, command)];
    CommandsOfItems(indent, [command]);
  }

  lemma EnabledBlockAfter(lines: seq<Line>, files: seq<ToolFile>, command: string)
    ensures command in AfterEnabling(Commands(EnabledBlock(lines, files))) <==>
            HasLine(Seen(lines, files), ENABLE_ITEM) && command in AfterEnabling(Commands(Block(lines)))
  {
    var body := Block(lines);
    if HasLine(Seen(lines, files), ENABLE_ITEM) {
      assert body + [] == body;
    } else {
      var item := Item(BlockIndent(body), GADGET_RUNCMD);
      ProperGadget();
      OneCommand(BlockIndent(body), GADGET_RUNCMD);
      CommandsConcat(body, [item]);
      EnablingLast(Commands(body));
    }
  }

  lemma {:induction false} EnablingLast(commands: seq<string>)
    ensures AfterEnabling(commands + [GADGET_RUNCMD]) == []
    decreases |commands|
  {
    if commands != [] {
      assert (commands + [GADGET_RUNCMD])[1..] == commands[1..] + [GADGET_RUNCMD];
      EnablingLast(commands[1..]);
    } else {
      assert commands + [GADGET_RUNCMD] == [GADGET_RUNCMD];
      assert [GADGET_RUNCMD][1..] == [];
    }
  }

  lemma RunAfter(lines: seq<Line>, files: seq<ToolFile>, mode: Mode, command: Line)
    requires Setup(lines, files, mode).Ok? && AllInstallable(files) && command in Wanted(mode)
    ensures command in AfterEnabling(Commands(Block(Setup(lines, files, mode).value))) <==>
            || !HasLine(Seen(lines, files), "- " + command)
            || (HasLine(Seen(lines, files), ENABLE_ITEM) && command in AfterEnabling(Commands(Block(lines))))
  {
    var superseded, enabled := Superseded(mode), EnabledBlock(lines, files);
    var kept := Without(enabled, AsItems(superseded));
    var core, missing := TrimBlank(kept), Missing(Seen(lines, files), Wanted(mode));
    BlockAfterRun(lines, files, mode);
    ModeListsAreSound(mode);
    MissingFits(Seen(lines, files), Wanted(mode));
    assert AllProper(missing);
    CommandsConcat(core, Items(BlockIndent(core), missing));
    CommandsOfItems(BlockIndent(core), missing);
    CommandsOfCore(kept);
    AfterConcat(Commands(kept), missing);
    MissingHolds(Seen(lines, files), Wanted(mode), command);
    WantedAreModeCommands(mode);
    AfterWithout(enabled, superseded, command);
    EnabledBlockAfter(lines, files, command);
  }

  /** The mode's commands that the document or the new files hold stand in its block behind
      the enabling command. */
  predicate StandBehind(lines: seq<Line>, files: seq<ToolFile>, mode: Mode) {
    forall i | 0 <= i < |Wanted(mode)| && HasLine(Seen(lines, files), "- " + Wanted(mode)[i]) ::
      HasLine(Seen(lines, files), ENABLE_ITEM) && Wanted(mode)[i] in AfterEnabling(Commands(Block(lines)))
  }

  /** What a run makes of the board. On every document that is accepted, the block it leaves
      boots the board into the chosen mode, from every start and whatever the vendor's
      script does, if and only if the mode's commands that were already there stood in the
      block behind the enabling command. */
  lemma RunBootsIntoIff(lines: seq<Line>, files: seq<ToolFile>, mode: Mode)
    requires Setup(lines, files, mode).Ok? && AllInstallable(files)
    ensures BootsInto(Commands(Block(Setup(lines, files, mode).value)), mode) <==> StandBehind(lines, files, mode)
  {
    var commands := Commands(Block(Setup(lines, files, mode).value));
    RunSupersedes(lines, files, mode, commands);
    BootsIntoIff(commands, mode);
    RunStands(lines, files, mode, AfterEnabling(commands));
  }

  lemma RunSupersedes(lines: seq<Line>, files: seq<ToolFile>, mode: Mode, commands: seq<string>)
    requires Setup(lines, files, mode).Ok? && commands == Commands(Block(Setup(lines, files, mode).value))
    ensures NoneSuperseded(commands, mode)
  {
    forall c | c in AllModeCommands() && c !in Wanted(mode) ensures c !in commands {
      PinnedHolds(Enable(lines, files).value, mode, c);
    }
  }

  lemma RunStands(lines: seq<Line>, files: seq<ToolFile>, mode: Mode, last: seq<string>)
    requires Setup(lines, files, mode).Ok? && AllInstallable(files)
    requires last == AfterEnabling(Commands(Block(Setup(lines, files, mode).value)))
    ensures AllWanted(last, mode) <==> StandBehind(lines, files, mode)
  {
    forall c | c in Wanted(mode)
      ensures c in last <==>
              || !HasLine(Seen(lines, files), "- " + c)
              || (HasLine(Seen(lines, files), ENABLE_ITEM) && c in AfterEnabling(Commands(Block(lines))))
    {
      RunAfter(lines, files, mode, c);
    }
    BehindIff(lines, files, mode, last);
  }

  lemma BehindIff(lines: seq<Line>, files: seq<ToolFile>, mode: Mode, last: seq<string>)
    requires forall c | c in Wanted(mode) ::
               c in last <==>
               || !HasLine(Seen(lines, files), "- " + c)
               || (HasLine(Seen(lines, files), ENABLE_ITEM) && c in AfterEnabling(Commands(Block(lines))))
    ensures AllWanted(last, mode) <==> StandBehind(lines, files, mode)
  {
    if StandBehind(lines, files, mode) {
      forall c | c in Wanted(mode) ensures c in last {
        var i :| 0 <= i < |Wanted(mode)| && Wanted(mode)[i] == c;
      }
    }
  }

  lemma FreeIsUnseen(lines: seq<Line>, files: seq<ToolFile>, mode: Mode, i: nat)
    requires Enable(lines, files).Ok? && AllInstallable(files) && ModeFree(lines, files)
    requires i < |Wanted(mode)|
    ensures !HasLine(Seen(lines, files), "- " + Wanted(mode)[i])
  {
    EnableIsModeFree(lines, files);
    WantedAreModeCommands(mode);
    assert Wanted(mode)[i] in Wanted(mode);
    assert Wanted(mode)[i] in AsSet(AllModeCommands());
    EnableLeaves(lines, files, "- " + Wanted(mode)[i]);
  }

  lemma FreeBoots(lines: seq<Line>, files: seq<ToolFile>, mode: Mode)
    requires Setup(lines, files, mode).Ok? && AllInstallable(files) && ModeFree(lines, files)
    ensures BootsInto(Commands(Block(Setup(lines, files, mode).value)), mode)
  {
    RunBootsIntoIff(lines, files, mode);
    forall i | 0 <= i < |Wanted(mode)| ensures !HasLine(Seen(lines, files), "- " + Wanted(mode)[i]) {
      FreeIsUnseen(lines, files, mode, i);
    }
  }

  /** After any history of runs on a document without mode commands the board boots into
      the mode of the last one. */
  lemma LastModeBoots(lines: seq<Line>, files: seq<ToolFile>, modes: seq<Mode>, mode: Mode)
    requires AllInstallable(files) && ModeFree(lines, files)
    requires !EndsEmpty(lines) || AllBlank(lines)
    requires RunAll(lines, files, modes + [mode]).Ok?
    ensures BootsInto(Commands(Block(RunAll(lines, files, modes + [mode]).value)), mode)
  {
    LastModeWins(lines, files, modes, mode);
    FreeBoots(lines, files, mode);
  }

  lemma TwoLines(key: Line, item: Line, command: Line, content: string)
    requires key == RUNCMD + ":" && item == Item("  ", command) && Proper(command) && "- " <= content
    ensures HasLine([key, item], content) <==> content == "- " + command
    ensures !Find([key, item], RUNCMD).Flow?
  {
    KeysAreNoItems(content);
    ItemFacts("  ", command);
    assert [key, item] == [key] + [item];
    HasLineConcat([key], [item], content);
    HasOne(item, content);
    assert key[|RUNCMD| + 1..] == "";
  }

  /** A document that lists the mode's first command and lacks the enabling one. The run
      writes the enabling command below it, so the board need not boot into the mode. */
  lemma EnablingComesLast(mode: Mode, key: Line, item: Line)
    requires key == "runcmd:" && item == Item("  ", Wanted(mode)[0])
    ensures Setup([key, item], [], mode).Ok?
    ensures !BootsInto(Commands(Block(Setup([key, item], [], mode).value)), mode)
  {
    FirstIsProper(mode, Wanted(mode)[0]);
    TwoLines(key, item, Wanted(mode)[0], "- " + Wanted(mode)[0]);
    TwoLines(key, item, Wanted(mode)[0], ENABLE_ITEM);
    assert Seen([key, item], []) == [key, item] + [] == [key, item];
    SetupAcceptsIff([key, item], [], mode);
    NotBehind([key, item], mode);
    RunBootsIntoIff([key, item], [], mode);
  }

  lemma FirstIsProper(mode: Mode, command: Line)
    requires command == Wanted(mode)[0]
    ensures Proper(command) && ENABLE_ITEM != "- " + command
  {
    ModeListsAreSound(mode);
    WantedAreModeCommands(mode);
    assert command in Wanted(mode);
    SameItem(command, GADGET_RUNCMD);
  }

  lemma NotBehind(lines: seq<Line>, mode: Mode)
    requires Wanted(mode) != [] && HasLine(Seen(lines, []), "- " + Wanted(mode)[0])
    requires !HasLine(Seen(lines, []), ENABLE_ITEM)
    ensures !StandBehind(lines, [], mode)
  {
  }

  // ---------------------------------------------------------------------
  // On text
  // ---------------------------------------------------------------------

  /** The commands that a document has the board run. */
  function BootCommands(userData: string): seq<string> {
    Commands(Block(SplitLines(userData)))
  }

  /** The same on the text of a document. */
  lemma RunBootsIntoText(userData: string, files: seq<ToolFile>, mode: Mode, after: string)
    requires SetupText(userData, files, mode) == Ok(after) && AllInstallable(files)
    ensures BootsInto(BootCommands(after), mode) <==> StandBehind(SplitLines(userData), files, mode)
  {
    var lines := SplitLines(userData);
    SetupLines(userData, files, mode);
    SplitUnlines(Setup(lines, files, mode).value);
    RunBootsIntoIff(lines, files, mode);
  }
}
