/** Planning and applying the edits of a whole card, and running the tool again. */
module Card {
  import opened Outcomes
  import opened Cmdline
  import opened ConfigTxt
  import opened WriteFiles
  import opened ModeCommands
  import opened UserData

  /** The files of the boot partition, by name. */
  type Files = map<string, string>

  datatype Flags = Flags(freeUart: bool, enableSsh: bool, mode: Mode)

  datatype PlannedChange = PlannedChange(name: string, original: string, updated: string) {
    predicate HasEffect() {
      original != updated
    }

    predicate IsNewFile(card: Files) {
      name !in card
    }
  }

  const CONFIG_NAME := "config.txt"
  const CMDLINE_NAME := "cmdline.txt"
  const USER_DATA_NAME := "user-data"
  const SSH_NAME := "ssh"
  const BACKUP_SUFFIX := ".uc-orig"
  const GADGET_MODULES := ["dwc2", "g_ether"]

  function Read(card: Files, name: string): string {
    if name in card then card[name] else ""
  }

  function BackupName(name: string): string {
    name + BACKUP_SUFFIX
  }

  function PrepareCmdline(cmdline: string, freeUart: bool): Result<string> {
    var added :- AddModulesLoadText(cmdline, GADGET_MODULES);
    if freeUart then RemoveSerialConsole(added) else Ok(added)
  }

  function PlanChanges(card: Files, flags: Flags, files: seq<ToolFile>): Result<seq<PlannedChange>> {
    var config := Read(card, CONFIG_NAME);
    var cmdline := Read(card, CMDLINE_NAME);
    var userData := Read(card, USER_DATA_NAME);
    var cmdlineUpdated :- PrepareCmdline(cmdline, flags.freeUart);
    var userDataUpdated :- SetupText(userData, files, flags.mode);
    Ok(Planned(PlannedChange(CONFIG_NAME, config, EnableOverlay(config)),
               PlannedChange(CMDLINE_NAME, cmdline, cmdlineUpdated),
               PlannedChange(USER_DATA_NAME, userData, userDataUpdated),
               flags.enableSsh))
  }

  function Planned(config: PlannedChange, cmdline: PlannedChange, userData: PlannedChange,
                   enableSsh: bool): seq<PlannedChange> {
    [config, cmdline, userData] + if enableSsh then [PlannedChange(SSH_NAME, "", "")] else []
  }

  function Effective(card: Files, changes: seq<PlannedChange>): seq<PlannedChange> {
    if changes == [] then []
    else (if changes[0].HasEffect() || changes[0].IsNewFile(card) then [changes[0]] else [])
         + Effective(card, changes[1..])
  }

  /** One file rewritten, its content backed up the first time it is changed. */
  function Applied(card: Files, change: PlannedChange): Files {
    var backup := BackupName(change.name);
    var backedUp := if change.original != "" && !change.IsNewFile(card) && backup !in card
                    then card[backup := change.original] else card;
    backedUp[change.name := change.updated]
  }

  function AppliedAll(card: Files, changes: seq<PlannedChange>): Files
    decreases |changes|
  {
    if changes == [] then card else AppliedAll(Applied(card, changes[0]), changes[1..])
  }

  /** The card after a run that is confirmed; a refused plan writes nothing. */
  function AfterRun(card: Files, flags: Flags, files: seq<ToolFile>): Files {
    var plan := PlanChanges(card, flags, files);
    if plan.Ok? then AppliedAll(card, Effective(card, plan.value)) else card
  }

  function AfterRuns(card: Files, runs: seq<Flags>, files: seq<ToolFile>): Files
    decreases |runs|
  {
    if runs == [] then card
    else AfterRun(AfterRuns(card, runs[..|runs| - 1], files), runs[|runs| - 1], files)
  }

  /** A mounted boot partition, changed in place. */
  class BootPartition {
    var files: Files

    constructor (initial: Files)
      ensures files == initial
    {
      files := initial;
    }

    method ApplyChange(change: PlannedChange)
      modifies this
      ensures files == Applied(old(files), change)
    {
      if change.original != "" && !change.IsNewFile(files) {
        var backup := BackupName(change.name);
        if backup !in files {
          files := files[backup := change.original];
        }
      }
      files := files[change.name := change.updated];
    }

    /** A run whose changes are confirmed: plan, keep what has effect, apply one by one. */
    method Run(flags: Flags, toolFiles: seq<ToolFile>) returns (plan: Result<seq<PlannedChange>>)
      modifies this
      ensures plan == PlanChanges(old(files), flags, toolFiles)
      ensures files == AfterRun(old(files), flags, toolFiles)
    {
      plan := PlanChanges(files, flags, toolFiles);
      if plan.Err? {
        return;
      }
      var effective := Effective(files, plan.value);
      for i := 0 to |effective|
        invariant AppliedAll(files, effective[i..]) == AppliedAll(old(files), effective)
      {
        assert effective[i..][1..] == effective[i + 1..];
        ApplyChange(effective[i]);
      }
    }
  }

  // ---------------------------------------------------------------------
  // Names
  // ---------------------------------------------------------------------

  predicate Target(name: string) {
    name == CONFIG_NAME || name == CMDLINE_NAME || name == USER_DATA_NAME || name == SSH_NAME
  }

  /** No backup is ever a file the tool edits, and each file has a backup of its own. */
  lemma BackupNames(name: string, other: string)
    requires Target(name) && Target(other)
    ensures BackupName(name) != other
    ensures BackupName(name) == BackupName(other) ==> name == other
  {
    assert |BACKUP_SUFFIX| == 8;
    assert |CONFIG_NAME| == 10 && |CMDLINE_NAME| == 11 && |USER_DATA_NAME| == 9 && |SSH_NAME| == 3;
    assert BackupName(name)[..|name|] == name && BackupName(other)[..|other|] == other;
    assert BackupName(SSH_NAME)[0] == 's' && CMDLINE_NAME[0] == 'c';
  }

  predicate DistinctTargets(changes: seq<PlannedChange>) {
    && (forall i | 0 <= i < |changes| :: Target(changes[i].name))
    && (forall i, j | 0 <= i < j < |changes| :: changes[i].name != changes[j].name)
  }

  // ---------------------------------------------------------------------
  // What applying leaves, file by file
  // ---------------------------------------------------------------------

  lemma {:induction false} UntouchedBy(card: Files, changes: seq<PlannedChange>, name: string)
    requires DistinctTargets(changes) && Target(name)
    requires forall i | 0 <= i < |changes| :: changes[i].name != name
    ensures name in AppliedAll(card, changes) <==> name in card
    ensures name in card ==> AppliedAll(card, changes)[name] == card[name]
    ensures BackupName(name) in AppliedAll(card, changes) <==> BackupName(name) in card
    ensures BackupName(name) in card ==> AppliedAll(card, changes)[BackupName(name)] == card[BackupName(name)]
    decreases |changes|
  {
    if changes != [] {
      BackupNames(name, changes[0].name);
      BackupNames(changes[0].name, name);
      UntouchedBy(Applied(card, changes[0]), changes[1..], name);
    }
  }

  /** A changed file holds its new content, and its backup is the old one if there was
      none before and there was something to keep. */
  lemma {:induction false} ChangedBy(card: Files, changes: seq<PlannedChange>, k: nat)
    requires DistinctTargets(changes) && k < |changes|
    ensures var change, after := changes[k], AppliedAll(card, changes);
            var backup := BackupName(change.name);
            && change.name in after && after[change.name] == change.updated
            && (backup in card ==> backup in after && after[backup] == card[backup])
            && (backup !in card && change.original != "" && change.name in card ==>
                  backup in after && after[backup] == change.original)
            && (backup !in card && (change.original == "" || change.name !in card) ==> backup !in after)
    decreases |changes|
  {
    var change := changes[k];
    BackupNames(change.name, change.name);
    var next := Applied(card, changes[0]);
    if k == 0 {
      UntouchedBy(next, changes[1..], change.name);
    } else {
      BackupNames(change.name, changes[0].name);
      BackupNames(changes[0].name, change.name);
      ChangedBy(next, changes[1..], k - 1);
    }
  }

  lemma {:induction false} EffectiveFacts(card: Files, changes: seq<PlannedChange>)
    requires DistinctTargets(changes)
    ensures DistinctTargets(Effective(card, changes))
    ensures forall c :: c in Effective(card, changes) <==> c in changes && (c.HasEffect() || c.IsNewFile(card))
  {
    if changes != [] {
      EffectiveFacts(card, changes[1..]);
      assert changes == [changes[0]] + changes[1..];
      var rest := Effective(card, changes[1..]);
      forall i | 0 <= i < |rest| ensures rest[i].name != changes[0].name {
        assert rest[i] in changes[1..];
      }
    }
  }

  /** After a run every planned file holds what was planned for it. */
  lemma PlannedIsWritten(card: Files, changes: seq<PlannedChange>, change: PlannedChange)
    requires DistinctTargets(changes) && change in changes && change.original == Read(card, change.name)
    ensures var after := AppliedAll(card, Effective(card, changes));
            change.name in after && after[change.name] == change.updated
  {
    var effective := Effective(card, changes);
    EffectiveFacts(card, changes);
    if change in effective {
      var k :| 0 <= k < |effective| && effective[k] == change;
      ChangedBy(card, effective, k);
    } else {
      forall i | 0 <= i < |effective| ensures effective[i].name != change.name {
        assert effective[i] in changes;
        SameChange(changes, effective[i], change);
      }
      UntouchedBy(card, effective, change.name);
    }
  }

  lemma SameChange(changes: seq<PlannedChange>, a: PlannedChange, b: PlannedChange)
    requires DistinctTargets(changes) && a in changes && b in changes
    ensures a.name == b.name ==> a == b
  {
    var i :| 0 <= i < |changes| && changes[i] == a;
    var j :| 0 <= j < |changes| && changes[j] == b;
  }

  lemma NamesDiffer()
    ensures CONFIG_NAME != CMDLINE_NAME && CONFIG_NAME != USER_DATA_NAME && CONFIG_NAME != SSH_NAME
    ensures CMDLINE_NAME != USER_DATA_NAME && CMDLINE_NAME != SSH_NAME && USER_DATA_NAME != SSH_NAME
  {
    assert |CONFIG_NAME| == 10 && |CMDLINE_NAME| == 11 && |USER_DATA_NAME| == 9 && |SSH_NAME| == 3;
  }

  lemma PlannedIsDistinct(config: PlannedChange, cmdline: PlannedChange, userData: PlannedChange, enableSsh: bool)
    requires config.name == CONFIG_NAME && cmdline.name == CMDLINE_NAME && userData.name == USER_DATA_NAME
    ensures DistinctTargets(Planned(config, cmdline, userData, enableSsh))
  {
    NamesDiffer();
    var changes := Planned(config, cmdline, userData, enableSsh);
    assert |changes| <= 4;
  }
}
