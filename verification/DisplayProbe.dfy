/** Choosing the e-paper driver at startup, and the record each boot leaves for the next. */
module DisplayProbe {
  import opened Outcomes

  // ---------------------------------------------------------------------
  // The persisted record
  // ---------------------------------------------------------------------

  /** A parsed JSON value. */
  datatype Json =
    | Null
    | Bool(b: bool)
    | Number(n: int)
    | Text(s: string)
    | Array(items: seq<Json>)
    | Object(fields: map<string, Json>)

  predicate Truthy(json: Json) {
    match json
    case Null => false
    case Bool(b) => b
    case Number(n) => n != 0
    case Text(s) => s != ""
    case Array(items) => items != []
    case Object(fields) => |fields| > 0
  }

  type Status = map<string, Json>

  /** What a readable status file holds: nothing that parses, or a value. A file that is
      absent or that cannot be opened reads as nothing too. */
  type StatusFile = Option<Json>

  /** Damage on which reading raises: bytes that are not UTF-8, which the decoding does not
      catch, or JSON nested past the decoder's recursion limit, which is no ValueError. */
  datatype Damage = NotUtf8 | NestedTooDeep

  /** What is on disk: a file on which reading raises, or one that it reads. */
  datatype Disk = Garbled(damage: Damage) | Stored(file: StatusFile)

  /** The record, or none for a file that is absent, torn or not an object. */
  function ReadStatus(file: StatusFile): Option<Status> {
    if file.Some? && file.value.Object? then Some(file.value.fields) else None
  }

  function Get(status: Status, key: string): Json {
    if key in status then status[key] else Null
  }

  const CONTROLLER_UC8151D := "UC8151D"
  const CONTROLLER_SSD1680 := "SSD1680"
  const PANEL_AUTO := "auto"

  function Optional(text: Option<string>): Json {
    if text.Some? then Text(text.value) else Null
  }

  function WriteStatus(initialized: bool, error: Option<string>, busyTimeout: bool,
                       controller: Option<string>, panel: string): Json {
    Object(map["initialized" := Bool(initialized), "error" := Optional(error), "busy_timeout" := Bool(busyTimeout),
               "active_controller" := Optional(controller), "panel" := Text(panel)])
  }

  // ---------------------------------------------------------------------
  // The selection rules
  // ---------------------------------------------------------------------

  datatype DisplayAttempt = DisplayAttempt(ok: bool, busyTimeout: bool, error: Option<string>)

  datatype DisplayOutcome = DisplayOutcome(
    initialized: bool, busyTimeout: bool, activeController: Option<string>, error: Option<string>)

  const DEFAULT_CONTROLLER_ORDER := (CONTROLLER_UC8151D, CONTROLLER_SSD1680)

  function HintFromStatus(status: Option<Status>): Option<string> {
    if status.None? || !Truthy(Get(status.value, "initialized")) then
      None
    else if "panel" in status.value && status.value["panel"] != Text(PANEL_AUTO) then
      None
    else
      var controller := Get(status.value, "active_controller");
      if controller == Text(CONTROLLER_UC8151D) || controller == Text(CONTROLLER_SSD1680)
      then Some(controller.s) else None
  }

  function ControllerOrder(hint: Option<string>): (string, string) {
    if hint == Some(CONTROLLER_SSD1680) then (CONTROLLER_SSD1680, CONTROLLER_UC8151D)
    else DEFAULT_CONTROLLER_ORDER
  }

  predicate ShouldAttemptAlt(primary: DisplayAttempt, hinted: bool) {
    !primary.ok && (hinted || primary.busyTimeout)
  }

  function ResolveOutcome(primary: DisplayAttempt, alt: Option<DisplayAttempt>,
                          order: (string, string), priorBusyTimeout: bool): DisplayOutcome {
    var (first, second) := order;
    var hinted := first != CONTROLLER_UC8151D;
    var ucAttempt := if first == CONTROLLER_UC8151D then Some(primary)
                     else if second == CONTROLLER_UC8151D then alt
                     else None;
    var busyTimeout := if ucAttempt.Some? then ucAttempt.value.busyTimeout else priorBusyTimeout;
    if primary.ok then
      DisplayOutcome(true, busyTimeout, Some(first), None)
    else if ShouldAttemptAlt(primary, hinted) then
      if alt.Some? && alt.value.ok then
        DisplayOutcome(true, busyTimeout, Some(second), None)
      else
        DisplayOutcome(false, busyTimeout, None, if alt.Some? then alt.value.error else primary.error)
    else
      DisplayOutcome(false, busyTimeout, None, primary.error)
  }

  // ---------------------------------------------------------------------
  // One boot
  // ---------------------------------------------------------------------

  /** How a driver's initialization goes: the panel answers, or it raises. */
  datatype Answer = Answers | Fails(busyTimeout: bool, error: string)

  /** What each controller's driver would meet this boot. */
  type Probe = string -> Answer

  function AttemptOf(answer: Answer): DisplayAttempt {
    match answer
    case Answers => DisplayAttempt(true, false, None)
    case Fails(busyTimeout, error) => DisplayAttempt(false, busyTimeout, Some(error))
  }

  /** A display manager: the controller its driver was built for, and whether it came up. */
  datatype Manager = Manager(controller: string, initialized: bool)

  /** The panel the settings name. */
  datatype Panel = Automatic | Explicit(key: string, controller: string)

  datatype Boot = Boot(manager: Manager, probes: nat, outcome: DisplayOutcome, status: Json)

  function Published(outcome: DisplayOutcome, panel: string): Json {
    if outcome.initialized then
      WriteStatus(true, None, outcome.busyTimeout, outcome.activeController, panel)
    else
      WriteStatus(false, outcome.error, outcome.busyTimeout, None, panel)
  }

  function ManagerFor(controller: string, probe: Probe): Manager {
    Manager(controller, probe(controller).Answers?)
  }

  function PriorBusyTimeout(file: StatusFile): bool {
    var prior := ReadStatus(file);
    prior.Some? && |prior.value| > 0 && Truthy(Get(prior.value, "busy_timeout"))
  }

  function AutomaticBoot(file: StatusFile, probe: Probe): Boot {
    var order := ControllerOrder(HintFromStatus(ReadStatus(file)));
    var (first, second) := order;
    var primary := AttemptOf(probe(first));
    var tryAlt := ShouldAttemptAlt(primary, first != CONTROLLER_UC8151D);
    var alt := if tryAlt then Some(AttemptOf(probe(second))) else None;
    var outcome := ResolveOutcome(primary, alt, order, PriorBusyTimeout(file));
    var manager := if alt.Some? && alt.value.ok then ManagerFor(second, probe) else ManagerFor(first, probe);
    Boot(manager, if tryAlt then 2 else 1, outcome, Published(outcome, PANEL_AUTO))
  }

  function ExplicitBoot(key: string, controller: string, probe: Probe): Boot {
    var primary := AttemptOf(probe(controller));
    var outcome := if primary.ok then DisplayOutcome(true, false, Some(controller), None)
                   else DisplayOutcome(false, primary.busyTimeout, None, primary.error);
    Boot(ManagerFor(controller, probe), 1, outcome, Published(outcome, key))
  }

  function BootOn(file: StatusFile, panel: Panel, probe: Probe): Boot {
    match panel
    case Automatic => AutomaticBoot(file, probe)
    case Explicit(key, controller) => ExplicitBoot(key, controller, probe)
  }

  /** The boot from what is on disk, or nothing where reading it raises. Only an Automatic
      boot reads it. */
  function BootFrom(disk: Disk, panel: Panel, probe: Probe): Option<Boot> {
    if disk.Stored? then Some(BootOn(disk.file, panel, probe))
    else if panel.Automatic? then None
    else Some(BootOn(None, panel, probe))
  }

  /** What a boot leaves on disk. */
  function DiskAfter(disk: Disk, panel: Panel, probe: Probe): Disk {
    var boot := BootFrom(disk, panel, probe);
    if boot.Some? then Stored(Some(boot.value.status)) else disk
  }

  /** What the caller is given: the manager, and whether the splash is shown. */
  datatype Display = Display(manager: Manager, splash: bool)

  /** The board, with the status file that outlives a boot. */
  class Board {
    var disk: Disk

    constructor (disk: Disk)
      ensures this.disk == disk
    {
      this.disk := disk;
    }

    /** Probes step by step and publishes the result; the splash is shown only on a panel
        that came up. Nothing is returned where the original raises. */
    method InitDisplay(panel: Panel, probe: Probe) returns (display: Option<Display>)
      modifies this
      ensures disk == DiskAfter(old(disk), panel, probe)
      ensures var boot := BootFrom(old(disk), panel, probe);
              display == if boot.None? then None
                         else Some(Display(boot.value.manager, boot.value.outcome.initialized))
    {
      if panel.Explicit? {
        var manager := ManagerFor(panel.controller, probe);
        var primary := AttemptOf(probe(panel.controller));
        var outcome;
        if primary.ok {
          outcome := DisplayOutcome(true, false, Some(panel.controller), None);
        } else {
          outcome := DisplayOutcome(false, primary.busyTimeout, None, primary.error);
        }
        var splash := FinishDisplayInit(outcome, panel.key);
        return Some(Display(manager, splash));
      }
      if disk.Garbled? {
        return None;
      }
      var prior := ReadStatus(disk.file);
      var order := ControllerOrder(HintFromStatus(prior));
      var priorBusyTimeout := PriorBusyTimeout(disk.file);
      var hinted := order.0 != CONTROLLER_UC8151D;
      var manager := ManagerFor(order.0, probe);
      var primary := AttemptOf(probe(order.0));
      var alt: Option<DisplayAttempt> := None;
      if ShouldAttemptAlt(primary, hinted) {
        alt := Some(AttemptOf(probe(order.1)));
        if alt.value.ok {
          manager := ManagerFor(order.1, probe);
        }
      }
      var outcome := ResolveOutcome(primary, alt, order, priorBusyTimeout);
      var splash := FinishDisplayInit(outcome, PANEL_AUTO);
      display := Some(Display(manager, splash));
    }

    method FinishDisplayInit(outcome: DisplayOutcome, panel: string) returns (splash: bool)
      modifies this
      ensures disk == Stored(Some(Published(outcome, panel))) && splash == outcome.initialized
    {
      if !outcome.initialized {
        disk := Stored(Some(WriteStatus(false, outcome.error, outcome.busyTimeout, None, panel)));
        return false;
      }
      disk := Stored(Some(WriteStatus(true, None, outcome.busyTimeout, outcome.activeController, panel)));
      return true;
    }
  }

  // ---------------------------------------------------------------------
  // One boot, whatever is on disk
  // ---------------------------------------------------------------------

  /** The Centaur glass in the board. */
  datatype Glass = V1 | V2

  function DriverOf(glass: Glass): string {
    if glass.V1? then CONTROLLER_SSD1680 else CONTROLLER_UC8151D
  }

  /** The glass answers its own driver and no other, and a V1 glass times out on the
      UC8151D's BUSY line. */
  predicate Wired(glass: Glass, probe: Probe) {
    && probe(DriverOf(glass)).Answers?
    && (glass.V1? ==> probe(CONTROLLER_UC8151D).Fails? && probe(CONTROLLER_UC8151D).busyTimeout)
    && (glass.V2? ==> probe(CONTROLLER_SSD1680).Fails?)
  }

  /** When an Automatic boot drives the panel: its first driver answers, or the second
      does and the first was either a hint or timed out on BUSY. */
  lemma InitializedIff(file: StatusFile, probe: Probe)
    ensures var (first, second) := ControllerOrder(HintFromStatus(ReadStatus(file)));
            var boot := AutomaticBoot(file, probe);
            && (boot.outcome.initialized <==>
                  probe(first).Answers? ||
                  (probe(second).Answers? && (first == CONTROLLER_SSD1680 || probe(first).busyTimeout)))
            && boot.manager.initialized == boot.outcome.initialized
            && boot.manager.controller == (if probe(first).Answers? || !boot.outcome.initialized then first else second)
            && (boot.outcome.initialized ==> boot.outcome.activeController == Some(boot.manager.controller))
            && (!boot.outcome.initialized ==> boot.outcome.activeController == None)
  {
    assert CONTROLLER_UC8151D[0] != CONTROLLER_SSD1680[0];
  }

  /** What an Automatic boot reports. An error is reported exactly when no driver came up,
      and it is that of the last driver tried; the BUSY timeout is what the UC8151D driver
      met if it was tried, and otherwise what the record before said. */
  lemma BootReports(file: StatusFile, probe: Probe)
    ensures var (first, second) := ControllerOrder(HintFromStatus(ReadStatus(file)));
            var boot := AutomaticBoot(file, probe);
            && (boot.probes == 2 <==> probe(first).Fails? && (first == CONTROLLER_SSD1680 || probe(first).busyTimeout))
            && (boot.outcome.error == None <==> boot.outcome.initialized)
            && (!boot.outcome.initialized ==>
                  var last := probe(if boot.probes == 2 then second else first);
                  last.Fails? && boot.outcome.error == Some(last.error))
            && boot.outcome.busyTimeout ==
               if first == CONTROLLER_UC8151D || boot.probes == 2
               then probe(CONTROLLER_UC8151D).Fails? && probe(CONTROLLER_UC8151D).busyTimeout
               else PriorBusyTimeout(file)
  {
  }

  /** From any readable status, even a malformed one, an Automatic boot ends with the
      glass's own driver up and with the manager built for it. */
  lemma AutomaticFindsTheGlass(file: StatusFile, glass: Glass, probe: Probe)
    requires Wired(glass, probe)
    ensures var boot := AutomaticBoot(file, probe);
            && boot.outcome.initialized && boot.outcome.activeController == Some(DriverOf(glass))
            && boot.manager == Manager(DriverOf(glass), true)
  {
    assert CONTROLLER_UC8151D[0] != CONTROLLER_SSD1680[0];
    InitializedIff(file, probe);
  }

  /** From anything on disk, an Automatic boot ends with the glass's own driver up if and
      only if reading the status file does not raise; where it raises, through either kind
      of damage, the boot never starts. */
  lemma AutomaticStartsIff(disk: Disk, glass: Glass, probe: Probe)
    requires Wired(glass, probe)
    ensures var boot := BootFrom(disk, Automatic, probe);
            && (boot.Some? <==> !disk.Garbled?)
            && (boot.Some? ==> boot.value.manager == Manager(DriverOf(glass), true)
                               && boot.value.outcome.activeController == Some(DriverOf(glass)))
  {
    if disk.Stored? {
      AutomaticFindsTheGlass(disk.file, glass, probe);
    }
  }

  /** A boot with a named panel. From anything on disk, the damaged included, it starts and
      probes that panel's driver and no other. It reports what the driver met: the panel up
      if and only if the driver answered, and otherwise the driver's own error and BUSY
      timeout. The record it leaves says so, and names the panel. */
  lemma ExplicitReports(disk: Disk, key: string, controller: string, probe: Probe)
    ensures BootFrom(disk, Explicit(key, controller), probe).Some?
    ensures var boot := BootFrom(disk, Explicit(key, controller), probe).value;
            var up := probe(controller).Answers?;
            && boot.probes == 1
            && boot.manager == Manager(controller, up)
            && boot.outcome.initialized == up
            && boot.outcome.activeController == (if up then Some(controller) else None)
            && boot.outcome.error == (if up then None else Some(probe(controller).error))
            && boot.outcome.busyTimeout == (!up && probe(controller).busyTimeout)
    ensures var boot := BootFrom(disk, Explicit(key, controller), probe).value;
            boot.status ==
            match probe(controller)
            case Answers =>
              Object(map["initialized" := Bool(true), "error" := Null, "busy_timeout" := Bool(false),
                         "active_controller" := Text(controller), "panel" := Text(key)])
            case Fails(busyTimeout, error) =>
              Object(map["initialized" := Bool(false), "error" := Text(error), "busy_timeout" := Bool(busyTimeout),
                         "active_controller" := Null, "panel" := Text(key)])
    ensures DiskAfter(disk, Explicit(key, controller), probe) ==
            Stored(Some(BootFrom(disk, Explicit(key, controller), probe).value.status))
  {
  }

  /** The record an Automatic boot leaves, field by field. */
  lemma AutomaticRecords(file: StatusFile, probe: Probe)
    ensures var boot := AutomaticBoot(file, probe);
            boot.status ==
            Object(map["initialized" := Bool(boot.manager.initialized),
                       "error" := if boot.outcome.error.Some? then Text(boot.outcome.error.value) else Null,
                       "busy_timeout" := Bool(boot.outcome.busyTimeout),
                       "active_controller" :=
                         if boot.manager.initialized then Text(boot.manager.controller) else Null,
                       "panel" := Text("auto")])
  {
    InitializedIff(file, probe);
    BootReports(file, probe);
  }

  lemma FalsyIff(json: Json)
    ensures !Truthy(json) <==> json in {Null, Bool(false), Number(0), Text(""), Array([]), Object(map[])}
  {
    if json.Object? && !Truthy(json) {
      assert json.fields == map[];
    }
  }

  /** The BUSY timeout that is carried over: what an object says under "busy_timeout", and
      none from anything else. */
  lemma PriorTimeoutIff(file: StatusFile)
    ensures PriorBusyTimeout(file) <==>
            && file.Some? && file.value.Object?
            && "busy_timeout" in file.value.fields && Truthy(file.value.fields["busy_timeout"])
  {
  }

  /** What an earlier record makes an Automatic boot try first. The SSD1680 goes first if and
      only if the record says that it drove the panel, and that no named panel was set. */
  lemma OrderIff(file: StatusFile)
    ensures ControllerOrder(HintFromStatus(ReadStatus(file))) ==
            if && file.Some? && file.value.Object?
               && "initialized" in file.value.fields && Truthy(file.value.fields["initialized"])
               && ("panel" in file.value.fields ==> file.value.fields["panel"] == Text("auto"))
               && "active_controller" in file.value.fields
               && file.value.fields["active_controller"] == Text("SSD1680")
            then ("SSD1680", "UC8151D") else ("UC8151D", "SSD1680")
  {
    assert CONTROLLER_UC8151D[0] != CONTROLLER_SSD1680[0];
  }

  lemma HintOfPublished(outcome: DisplayOutcome, panel: string)
    ensures ReadStatus(Some(Published(outcome, panel))).Some?
    ensures HintFromStatus(ReadStatus(Some(Published(outcome, panel)))) ==
            if outcome.initialized && panel == PANEL_AUTO && outcome.activeController in
               {Some(CONTROLLER_UC8151D), Some(CONTROLLER_SSD1680)}
            then outcome.activeController else None
    ensures PriorBusyTimeout(Some(Published(outcome, panel))) == outcome.busyTimeout
  {
    var status := ReadStatus(Some(Published(outcome, panel))).value;
    assert "panel" in status;
  }

  /** The next boot on the same glass needs one probe. */
  lemma SecondBootProbesOnce(file: StatusFile, glass: Glass, probe: Probe, next: Probe)
    requires Wired(glass, probe) && Wired(glass, next)
    ensures AutomaticBoot(Some(AutomaticBoot(file, probe).status), next).probes == 1
  {
    AutomaticFindsTheGlass(file, glass, probe);
    HintOfPublished(AutomaticBoot(file, probe).outcome, PANEL_AUTO);
  }

  // ---------------------------------------------------------------------
  // Every sequence of boots
  // ---------------------------------------------------------------------

  /** What happens to the board between two reports: a boot with any panel setting, on
      any glass, whatever the drivers meet; or the status file lost, torn or garbled. */
  datatype Event = Booted(panel: Panel, probe: Probe) | StatusLost | StatusGarbled(damage: Damage)

  function After(disk: Disk, event: Event): Disk {
    match event
    case Booted(panel, probe) => DiskAfter(disk, panel, probe)
    case StatusLost => Stored(None)
    case StatusGarbled(damage) => Garbled(damage)
  }

  predicate Plain(event: Event) {
    event.Booted? && event.panel.Explicit? ==> event.panel.key != PANEL_AUTO
  }

  function AfterAll(disk: Disk, events: seq<Event>): Disk
    decreases |events|
  {
    if events == [] then disk else After(AfterAll(disk, events[..|events| - 1]), events[|events| - 1])
  }

  /** A garbled status file is never repaired by Automatic boots, however many. */
  lemma {:induction false} GarbledStays(damage: Damage, events: seq<Event>)
    requires forall i | 0 <= i < |events| :: events[i].Booted? && events[i].panel.Automatic?
    ensures AfterAll(Garbled(damage), events) == Garbled(damage)
    decreases |events|
  {
    if events != [] {
      GarbledStays(damage, events[..|events| - 1]);
    }
  }

  /** An Automatic record of a driven SSD1680 says that the BUSY timeout was seen. */
  predicate RemembersTimeout(file: StatusFile) {
    HintFromStatus(ReadStatus(file)) == Some(CONTROLLER_SSD1680) ==> PriorBusyTimeout(file)
  }

  lemma BootRemembers(file: StatusFile, panel: Panel, probe: Probe)
    requires RemembersTimeout(file)
    requires panel.Explicit? ==> panel.key != PANEL_AUTO
    ensures RemembersTimeout(Some(BootOn(file, panel, probe).status))
  {
    assert CONTROLLER_UC8151D[0] != CONTROLLER_SSD1680[0];
    match panel
    case Automatic =>
      HintOfPublished(AutomaticBoot(file, probe).outcome, PANEL_AUTO);
    case Explicit(key, controller) =>
      HintOfPublished(ExplicitBoot(key, controller, probe).outcome, key);
  }

  predicate DiskRemembers(disk: Disk) {
    disk.Stored? ==> RemembersTimeout(disk.file)
  }

  /** Over every sequence of boots, swaps and damage that starts without a status file,
      whatever the drivers report: an Automatic record with the SSD1680 active has
      busy_timeout true, although most boots that write it never probe the driver that can
      see it. */
  lemma {:induction false} TimeoutIsNeverForgotten(events: seq<Event>)
    requires forall i | 0 <= i < |events| :: Plain(events[i])
    ensures DiskRemembers(AfterAll(Stored(None), events))
    decreases |events|
  {
    if events != [] {
      var before, last := events[..|events| - 1], events[|events| - 1];
      TimeoutIsNeverForgotten(before);
      assert Plain(last);
      if last.Booted? {
        var disk := AfterAll(Stored(None), before);
        BootRemembers(if disk.Stored? then disk.file else None, last.panel, last.probe);
      }
    }
  }

  /** A live switch to Automatic writes its own record. */
  function SwitchedToAutomatic(controller: string): StatusFile {
    Some(WriteStatus(true, None, false, Some(controller), PANEL_AUTO))
  }

  /** Which is why live switches are not among the events: on a V1 glass the switch drops
      the timeout, and every later boot on that glass writes the same record again. */
  lemma SwitchForgetsTimeout(probe: Probe)
    requires Wired(V1, probe)
    ensures !RemembersTimeout(SwitchedToAutomatic(CONTROLLER_SSD1680))
    ensures Some(AutomaticBoot(SwitchedToAutomatic(CONTROLLER_SSD1680), probe).status) ==
            SwitchedToAutomatic(CONTROLLER_SSD1680)
  {
    var outcome := DisplayOutcome(true, false, Some(CONTROLLER_SSD1680), None);
    HintOfPublished(outcome, PANEL_AUTO);
    assert SwitchedToAutomatic(CONTROLLER_SSD1680) == Some(Published(outcome, PANEL_AUTO));
  }
}
