/** The commands that leave the USB gadget in each mode. */
module ModeCommands {
  import opened Text
  import opened DocumentLines

  datatype Mode = Client | Shared | Auto

  const GADGET_PROBE: Line := "command -v rpi-usb-gadget >/dev/null 2>&1"
  const GADGET_ENABLE: Line := " && rpi-usb-gadget on -f || true"
  const GADGET_RUNCMD: Line := GADGET_PROBE + GADGET_ENABLE
  const ICS_UNIT: Line := "rpi-usb-gadget-ics.service"
  const CLIENT_CONN: Line := "USB Gadget (client)"
  const SHARED_CONN: Line := "USB Gadget (shared)"

  function StopWatcher(): Line {
    "systemctl disable --now " + ICS_UNIT + " || true"
  }

  function StartWatcher(): Line {
    "systemctl enable --now " + ICS_UNIT + " || true"
  }

  function Autoconnect(profile: Line, value: Line): Line {
    "nmcli connection modify \"" + profile + "\" connection.autoconnect " + value + " || true"
  }

  function Activate(profile: Line, verb: Line): Line {
    "nmcli connection " + verb + " \"" + profile + "\" || true"
  }

  function PinCommands(wanted: Line, unwanted: Line): seq<Line> {
    [StopWatcher(), Autoconnect(wanted, "yes"), Autoconnect(unwanted, "no"),
     Activate(unwanted, "down"), Activate(wanted, "up")]
  }

  function Wanted(mode: Mode): seq<Line> {
    match mode
    case Auto => [StartWatcher()]
    case Client => PinCommands(CLIENT_CONN, SHARED_CONN)
    case Shared => PinCommands(SHARED_CONN, CLIENT_CONN)
  }

  function AllModeCommands(): seq<Line> {
    Wanted(Client) + Wanted(Shared) + Wanted(Auto)
  }

  /** The commands of the other modes that this mode does not share. */
  function Superseded(mode: Mode): set<Line> {
    set c | c in AllModeCommands() && c !in Wanted(mode)
  }

  /** The commands of one list that another mode leaves in place. */
  function Survivors(commands: seq<Line>, superseded: set<Line>): seq<Line> {
    if commands == [] then []
    else (if commands[0] in superseded then [] else [commands[0]]) + Survivors(commands[1..], superseded)
  }

  lemma CommandsDiffer()
    ensures |StopWatcher()| == 58 && |StartWatcher()| == 57
    ensures forall p: Line :: |Autoconnect(p, "yes")| == |p| + 61 && |Autoconnect(p, "no")| == |p| + 60
    ensures forall p: Line :: |Activate(p, "down")| == |p| + 32 && |Activate(p, "up")| == |p| + 30
    ensures |CLIENT_CONN| == |SHARED_CONN| == 19
  {
  }

  lemma ProfilesDiffer(value: Line, verb: Line)
    ensures Autoconnect(CLIENT_CONN, value) != Autoconnect(SHARED_CONN, value)
    ensures Activate(CLIENT_CONN, verb) != Activate(SHARED_CONN, verb)
  {
    assert CLIENT_CONN[12] != SHARED_CONN[12];
    var pre := "nmcli connection modify \"";
    assert Autoconnect(CLIENT_CONN, value)[|pre| + 12] == CLIENT_CONN[12];
    assert Autoconnect(SHARED_CONN, value)[|pre| + 12] == SHARED_CONN[12];
    var act := "nmcli connection " + verb + " \"";
    assert Activate(CLIENT_CONN, verb)[|act| + 12] == CLIENT_CONN[12];
    assert Activate(SHARED_CONN, verb)[|act| + 12] == SHARED_CONN[12];
  }

  lemma Lengths()
    ensures |Wanted(Client)| == 5 && |Wanted(Shared)| == 5 && |Wanted(Auto)| == 1
    ensures forall i | 0 <= i < 5 :: |Wanted(Client)[i]| == [58, 80, 79, 51, 49][i]
    ensures forall i | 0 <= i < 5 :: |Wanted(Shared)[i]| == [58, 80, 79, 51, 49][i]
    ensures |Wanted(Auto)[0]| == 57 && |GADGET_RUNCMD| == 73
    ensures Wanted(Client)[0] == Wanted(Shared)[0]
    ensures forall i | 0 < i < 5 :: Wanted(Client)[i] != Wanted(Shared)[i]
  {
    CommandsDiffer();
    ProfilesDiffer("yes", "down");
    ProfilesDiffer("no", "up");
  }

  lemma DistinctByLength(commands: seq<Line>)
    requires forall i, j | 0 <= i < j < |commands| :: |commands[i]| != |commands[j]|
    ensures Distinct(commands)
  {
  }

  /** Two mode lists of the same shape share at most the command they start with. */
  lemma OnlyTheFirstIsShared(a: seq<Line>, b: seq<Line>)
    requires |a| == |b|
    requires forall i, j | 0 <= i < j < |b| :: |b[i]| != |b[j]|
    requires forall i | 0 <= i < |a| :: |a[i]| == |b[i]|
    requires forall i | 0 < i < |a| :: a[i] != b[i]
    ensures forall i | 0 < i < |a| :: a[i] !in b
  {
    forall i, j | 0 < i < |a| && 0 <= j < |b| ensures a[i] != b[j] {
      if i == j {
      } else if i < j {
        assert |b[i]| != |b[j]|;
      } else {
        assert |b[j]| != |b[i]|;
      }
    }
  }

  lemma ProperTail(start: Line, tail: Line)
    requires Proper(tail)
    ensures Proper(start + tail)
  {
  }

  lemma ProperWatcher()
    ensures Proper(StopWatcher()) && Proper(StartWatcher())
  {
    ProperTail("systemctl disable --now " + ICS_UNIT, " || true");
    ProperTail("systemctl enable --now " + ICS_UNIT, " || true");
  }

  lemma ProperGadget()
    ensures Proper(GADGET_RUNCMD)
  {
    ProperTail(GADGET_PROBE, GADGET_ENABLE);
  }

  lemma ProperProfile(profile: Line, value: Line, verb: Line)
    ensures Proper(Autoconnect(profile, value)) && Proper(Activate(profile, verb))
  {
    ProperTail("nmcli connection modify \"" + profile + "\" connection.autoconnect " + value, " || true");
    ProperTail("nmcli connection " + verb + " \"" + profile, "\" || true");
  }

  lemma EndsProper(mode: Mode)
    ensures AllProper(Wanted(mode)) && Proper(GADGET_RUNCMD)
  {
    ProperWatcher();
    ProperGadget();
    ProperProfile(CLIENT_CONN, "yes", "up");
    ProperProfile(CLIENT_CONN, "no", "down");
    ProperProfile(SHARED_CONN, "yes", "up");
    ProperProfile(SHARED_CONN, "no", "down");
  }

  /** Every list is made of distinct commands that survive stripping, none of them the
      enabling command. */
  lemma ModeListsAreSound(mode: Mode)
    ensures Wanted(mode) != [] && AllProper(Wanted(mode)) && Distinct(Wanted(mode))
    ensures GADGET_RUNCMD !in AllModeCommands() && Proper(GADGET_RUNCMD)
  {
    Lengths();
    EndsProper(mode);
    DistinctByLength(Wanted(mode));
    NotByLength(GADGET_RUNCMD, Wanted(Client), Wanted(Shared), Wanted(Auto));
  }

  lemma NotByLength(command: Line, a: seq<Line>, b: seq<Line>, c: seq<Line>)
    requires forall i | 0 <= i < |a| :: |a[i]| != |command|
    requires forall i | 0 <= i < |b| :: |b[i]| != |command|
    requires forall i | 0 <= i < |c| :: |c[i]| != |command|
    ensures command !in a + b + c
  {
  }

  lemma OnlyTheFirstOf(before: Mode, after: Mode)
    ensures Wanted(before) != [] && Wanted(after) != []
    ensures before == after || forall i | 0 < i < |Wanted(before)| :: Wanted(before)[i] !in Wanted(after)
    ensures Wanted(before)[0] in Wanted(after) ==> Wanted(before)[0] == Wanted(after)[0]
  {
    Lengths();
    OnlyTheFirstIsShared(Wanted(Client), Wanted(Shared));
    OnlyTheFirstIsShared(Wanted(Shared), Wanted(Client));
  }

  /** Whatever is left of one mode's list when another mode takes over is the start of
      that mode's own list. */
  lemma SurvivorsLead(before: Mode, after: Mode)
    ensures Survivors(Wanted(before), Superseded(after)) <= Wanted(after)
  {
    OnlyTheFirstOf(before, after);
    SurvivorsOf(Wanted(before), Wanted(after), AllModeCommands(), Superseded(after));
  }

  lemma SurvivorsOf(before: seq<Line>, after: seq<Line>, all: seq<Line>, superseded: set<Line>)
    requires superseded == set c | c in all && c !in after
    requires forall i | 0 <= i < |before| :: before[i] in all
    requires before != [] && after != []
    requires before == after || forall i | 0 < i < |before| :: before[i] !in after
    requires before[0] in after ==> before[0] == after[0]
    ensures Survivors(before, superseded) <= after
  {
    if before == after {
      AllSurvive(before, superseded);
    } else {
      NoneSurvive(before[1..], superseded);
    }
  }

  lemma AllSurvive(commands: seq<Line>, superseded: set<Line>)
    requires forall i | 0 <= i < |commands| :: commands[i] !in superseded
    ensures Survivors(commands, superseded) == commands
  {
  }

  lemma NoneSurvive(commands: seq<Line>, superseded: set<Line>)
    requires forall i | 0 <= i < |commands| :: commands[i] in superseded
    ensures Survivors(commands, superseded) == []
  {
  }
}
