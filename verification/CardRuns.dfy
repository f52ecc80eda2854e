/** What the tool promises about a card it is run on again and again. */
module CardRuns {
  import opened Outcomes
  import opened Text
  import opened Cmdline
  import opened CmdlineFacts
  import opened ConfigTxt
  import opened WriteFiles
  import opened ModeCommands
  import opened UserDataRuns
  import opened RepeatedRuns
  import opened RunOutcome
  import opened UserData
  import opened Card

  lemma GadgetModuleNames()
    ensures ModuleNames(GADGET_MODULES)
  {
    assert Whole("dwc2", IsSpace) && Whole("dwc2", Comma);
    assert Whole("g_ether", IsSpace) && Whole("g_ether", Comma);
  }

  lemma SingleFromAdd(cmdline: string)
    requires AddModulesLoadText(cmdline, GADGET_MODULES).Ok?
    ensures SingleCmdline(cmdline).Ok?
  {
  }

  /** The command line a run writes is one the next run leaves alone. */
  lemma PrepareTwice(cmdline: string, freeUart: bool)
    requires PrepareCmdline(cmdline, freeUart).Ok?
    ensures PrepareCmdline(PrepareCmdline(cmdline, freeUart).value, freeUart) == PrepareCmdline(cmdline, freeUart)
  {
    GadgetModuleNames();
    if freeUart {
      SingleFromAdd(cmdline);
      AddThenRemoveSettles(cmdline, GADGET_MODULES);
    } else {
      AddIdempotent(cmdline, GADGET_MODULES);
    }
  }

  /** What a plan is made of. */
  lemma PlanParts(card: Files, flags: Flags, files: seq<ToolFile>)
    returns (config: PlannedChange, cmdline: PlannedChange, userData: PlannedChange)
    requires PlanChanges(card, flags, files).Ok?
    ensures PlanChanges(card, flags, files).value == Planned(config, cmdline, userData, flags.enableSsh)
    ensures DistinctTargets(PlanChanges(card, flags, files).value)
    ensures config.name == CONFIG_NAME && config.original == Read(card, CONFIG_NAME)
    ensures config.updated == EnableOverlay(config.original)
    ensures cmdline.name == CMDLINE_NAME && cmdline.original == Read(card, CMDLINE_NAME)
    ensures PrepareCmdline(cmdline.original, flags.freeUart) == Ok(cmdline.updated)
    ensures userData.name == USER_DATA_NAME && userData.original == Read(card, USER_DATA_NAME)
    ensures SetupText(userData.original, files, flags.mode) == Ok(userData.updated)
  {
    var changes := PlanChanges(card, flags, files).value;
    config, cmdline, userData := changes[0], changes[1], changes[2];
    PlannedIsDistinct(config, cmdline, userData, flags.enableSsh);
  }

  /** After a run, each planned file reads as planned, and exists. */
  lemma RunWrites(card: Files, flags: Flags, files: seq<ToolFile>, change: PlannedChange)
    requires PlanChanges(card, flags, files).Ok? && change in PlanChanges(card, flags, files).value
    requires change.original == Read(card, change.name)
    ensures change.name in AfterRun(card, flags, files)
    ensures Read(AfterRun(card, flags, files), change.name) == change.updated
  {
    var config, cmdline, userData := PlanParts(card, flags, files);
    PlannedIsWritten(card, PlanChanges(card, flags, files).value, change);
  }

  lemma RunCreatesSsh(card: Files, flags: Flags, files: seq<ToolFile>)
    requires PlanChanges(card, flags, files).Ok? && flags.enableSsh
    ensures SSH_NAME in AfterRun(card, flags, files)
  {
    var changes := PlanChanges(card, flags, files).value;
    var config, cmdline, userData := PlanParts(card, flags, files);
    var ssh := PlannedChange(SSH_NAME, "", "");
    assert changes[3] == ssh;
    var effective := Effective(card, changes);
    EffectiveFacts(card, changes);
    if SSH_NAME in card {
      forall i | 0 <= i < |effective| ensures effective[i].name != SSH_NAME {
        assert effective[i] in changes;
        SameChange(changes, effective[i], ssh);
      }
      UntouchedBy(card, effective, SSH_NAME);
    } else {
      assert ssh in changes && ssh.IsNewFile(card);
      assert ssh in effective;
      var k :| 0 <= k < |effective| && effective[k] == ssh;
      ChangedBy(card, effective, k);
    }
  }

  lemma NothingEffective(card: Files, config: PlannedChange, cmdline: PlannedChange, userData: PlannedChange,
                         enableSsh: bool)
    requires config.name in card && cmdline.name in card && userData.name in card
    requires enableSsh ==> SSH_NAME in card
    requires !config.HasEffect() && !cmdline.HasEffect()
    ensures Effective(card, Planned(config, cmdline, userData, enableSsh)) ==
            if userData.HasEffect() then [userData] else []
  {
    var ssh: seq<PlannedChange> := if enableSsh then [PlannedChange(SSH_NAME, "", "")] else [];
    var changes := Planned(config, cmdline, userData, enableSsh);
    assert changes[1..] == [cmdline, userData] + ssh;
    assert changes[1..][1..] == [userData] + ssh;
    assert changes[1..][1..][1..] == ssh;
    assert ssh != [] ==> ssh[1..] == [];
    assert Effective(card, []) == [];
    assert Effective(card, ssh) == [];
    assert Effective(card, [userData] + ssh) == if userData.HasEffect() then [userData] else [];
    assert Effective(card, [cmdline, userData] + ssh) == Effective(card, [userData] + ssh);
  }

  /** Plan, apply, plan again with the same flags: the second plan is never refused, and
      it can only still drop empty lines at the end of user-data, which it does if and
      only if the first run met the guard. No file is new. */
  lemma PlanApplyPlan(card: Files, flags: Flags, files: seq<ToolFile>)
    requires PlanChanges(card, flags, files).Ok? && AllInstallable(files)
    ensures var after := AfterRun(card, flags, files);
            && PlanChanges(after, flags, files).Ok?
            && (Effective(after, PlanChanges(after, flags, files).value) == [] <==>
                !RunLeavesEmptyTail(SplitLines(Read(card, USER_DATA_NAME)), files, flags.mode))
            && forall c | c in Effective(after, PlanChanges(after, flags, files).value) :: c.name == USER_DATA_NAME
  {
    var after := AfterRun(card, flags, files);
    var config, cmdline, userData := PlanParts(card, flags, files);
    var changes := PlanChanges(card, flags, files).value;
    assert changes[0] == config && changes[1] == cmdline && changes[2] == userData;
    RunWrites(card, flags, files, config);
    RunWrites(card, flags, files, cmdline);
    RunWrites(card, flags, files, userData);
    if flags.enableSsh {
      RunCreatesSsh(card, flags, files);
    }
    OverlayIdempotent(config.original);
    PrepareTwice(cmdline.original, flags.freeUart);
    RerunText(userData.original, files, flags.mode, userData.updated);
    SecondPlan(after, flags, files, config.updated, cmdline.updated, userData.updated);
  }

  lemma SecondPlan(card: Files, flags: Flags, files: seq<ToolFile>, config: string, cmdline: string, userData: string)
    requires CONFIG_NAME in card && Read(card, CONFIG_NAME) == config && EnableOverlay(config) == config
    requires CMDLINE_NAME in card && Read(card, CMDLINE_NAME) == cmdline
    requires PrepareCmdline(cmdline, flags.freeUart) == Ok(cmdline)
    requires USER_DATA_NAME in card && Read(card, USER_DATA_NAME) == userData
    requires SetupText(userData, files, flags.mode).Ok?
    requires flags.enableSsh ==> SSH_NAME in card
    ensures PlanChanges(card, flags, files).Ok?
    ensures Effective(card, PlanChanges(card, flags, files).value) == [] <==>
            SetupText(userData, files, flags.mode) == Ok(userData)
    ensures forall c | c in Effective(card, PlanChanges(card, flags, files).value) :: c.name == USER_DATA_NAME
  {
    var c, k, u := PlanParts(card, flags, files);
    NothingEffective(card, c, k, u, flags.enableSsh);
  }

  /** From the second run on, with the same flags, nothing is ever left to change. */
  lemma SecondRunSettles(card: Files, flags: Flags, files: seq<ToolFile>)
    requires PlanChanges(card, flags, files).Ok? && AllInstallable(files)
    ensures var second := AfterRun(AfterRun(card, flags, files), flags, files);
            AfterRun(second, flags, files) == second
  {
    var first := AfterRun(card, flags, files);
    PlanApplyPlan(card, flags, files);
    PlanApplyPlan(first, flags, files);
    var config, cmdline, userData := PlanParts(card, flags, files);
    assert PlanChanges(card, flags, files).value[2] == userData;
    RunWrites(card, flags, files, userData);
    var once := userData.updated;
    RerunText(userData.original, files, flags.mode, once);
    var twice := SetupText(once, files, flags.mode).value;
    RerunText(once, files, flags.mode, twice);
  }

  // ---------------------------------------------------------------------
  // Backups
  // ---------------------------------------------------------------------

  /** Either the file is as it was and has no backup yet, or the backup holds what it was. */
  predicate KeptSafe(card: Files, name: string, pristine: string) {
    var backup := BackupName(name);
    if backup in card then card[backup] == pristine else name in card && card[name] == pristine
  }

  lemma RunKeepsSafe(card: Files, flags: Flags, files: seq<ToolFile>, name: string, pristine: string)
    requires Target(name) && pristine != "" && KeptSafe(card, name, pristine)
    ensures KeptSafe(AfterRun(card, flags, files), name, pristine)
    ensures BackupName(name) in card ==> BackupName(name) in AfterRun(card, flags, files)
  {
    var plan := PlanChanges(card, flags, files);
    if plan.Ok? {
      var changes, effective := plan.value, Effective(card, plan.value);
      var config, cmdline, userData := PlanParts(card, flags, files);
      EffectiveFacts(card, changes);
      if k :| 0 <= k < |effective| && effective[k].name == name {
        assert effective[k] in changes;
        ChangedBy(card, effective, k);
        EffectiveReadsCard(card, flags, files, effective[k]);
      } else {
        UntouchedBy(card, effective, name);
      }
    }
  }

  /** A change that is applied to a file that exists was planned from that file's content. */
  lemma EffectiveReadsCard(card: Files, flags: Flags, files: seq<ToolFile>, change: PlannedChange)
    requires PlanChanges(card, flags, files).Ok?
    requires change in PlanChanges(card, flags, files).value
    requires change.HasEffect() || change.IsNewFile(card)
    ensures change.name in card ==> change.original == card[change.name]
  {
    var config, cmdline, userData := PlanParts(card, flags, files);
    assert change in [config, cmdline, userData] || change == PlannedChange(SSH_NAME, "", "");
  }

  /** Pristine backups, over every sequence of runs with any flags: as long as a file that
      had content is as it was it has no backup, and from the run that first changes it
      the backup holds exactly that first content and never anything else. */
  lemma {:induction false} BackupsStayPristine(card: Files, runs: seq<Flags>, files: seq<ToolFile>, name: string)
    requires Target(name) && Read(card, name) != "" && BackupName(name) !in card
    ensures KeptSafe(AfterRuns(card, runs, files), name, Read(card, name))
    decreases |runs|
  {
    if runs != [] {
      var before := runs[..|runs| - 1];
      BackupsStayPristine(card, before, files, name);
      RunKeepsSafe(AfterRuns(card, before, files), runs[|runs| - 1], files, name, Read(card, name));
    }
  }

  /** A backup is never empty. */
  predicate BackupsHold(card: Files, name: string) {
    BackupName(name) in card ==> card[BackupName(name)] != ""
  }

  lemma RunKeepsBackupsFull(card: Files, flags: Flags, files: seq<ToolFile>, name: string)
    requires Target(name) && BackupsHold(card, name)
    ensures BackupsHold(AfterRun(card, flags, files), name)
  {
    var plan := PlanChanges(card, flags, files);
    if plan.Ok? {
      var effective := Effective(card, plan.value);
      var config, cmdline, userData := PlanParts(card, flags, files);
      EffectiveFacts(card, plan.value);
      if k :| 0 <= k < |effective| && effective[k].name == name {
        ChangedBy(card, effective, k);
      } else {
        UntouchedBy(card, effective, name);
      }
    }
  }

  lemma {:induction false} BackupsStayFull(card: Files, runs: seq<Flags>, files: seq<ToolFile>, name: string)
    requires Target(name) && BackupsHold(card, name)
    ensures BackupsHold(AfterRuns(card, runs, files), name)
    decreases |runs|
  {
    if runs != [] {
      var before := runs[..|runs| - 1];
      BackupsStayFull(card, before, files, name);
      RunKeepsBackupsFull(AfterRuns(card, before, files), runs[|runs| - 1], files, name);
    }
  }

  /** For every file the tool edits and every sequence of runs with any flags: a backup
      the tool made is the file as it was before the tool if and only if the file had
      content then. Of a file that was absent or empty it is some output of the tool. */
  lemma BackupIsPristineIff(card: Files, runs: seq<Flags>, files: seq<ToolFile>, name: string)
    requires Target(name) && BackupName(name) !in card
    requires BackupName(name) in AfterRuns(card, runs, files)
    ensures AfterRuns(card, runs, files)[BackupName(name)] == Read(card, name) <==> Read(card, name) != ""
  {
    if Read(card, name) != "" {
      BackupsStayPristine(card, runs, files, name);
    } else {
      BackupsStayFull(card, runs, files, name);
    }
  }

  /** A user-data file that was absent or empty is backed up, by the run that changes it
      again, as what the tool itself wrote. */
  lemma CreatedFileHasNoPristineBackup(card: Files, flags: Flags, later: Flags, files: seq<ToolFile>)
    requires Read(card, USER_DATA_NAME) == "" && BackupName(USER_DATA_NAME) !in card
    requires PlanChanges(card, flags, files).Ok?
    requires var after := AfterRun(card, flags, files);
             PlanChanges(after, later, files).Ok? && PlanChanges(after, later, files).value[2].HasEffect()
    ensures var after := AfterRun(card, flags, files);
            && BackupName(USER_DATA_NAME) !in after
            && BackupName(USER_DATA_NAME) in AfterRun(after, later, files)
            && Ok(AfterRun(after, later, files)[BackupName(USER_DATA_NAME)]) == SetupText("", files, flags.mode)
  {
    SetupIsNotEmpty("", files, flags.mode);
    var after := AfterRun(card, flags, files);
    var config, cmdline, userData := PlanParts(card, flags, files);
    var changes := PlanChanges(card, flags, files).value;
    assert changes[2] == userData;
    EffectiveFacts(card, changes);
    var effective := Effective(card, changes);
    assert userData in effective;
    var k :| 0 <= k < |effective| && effective[k] == userData;
    ChangedBy(card, effective, k);

    var config', cmdline', userData' := PlanParts(after, later, files);
    var changes' := PlanChanges(after, later, files).value;
    assert changes'[2] == userData';
    EffectiveFacts(after, changes');
    var effective' := Effective(after, changes');
    assert userData' in effective';
    var k' :| 0 <= k' < |effective'| && effective'[k'] == userData';
    ChangedBy(after, effective', k');
  }

  /** Choosing another mode changes a document the tool wrote. */
  lemma ModeSwitchHasEffect(files: seq<ToolFile>)
    requires AllInstallable(files) && ModeFree([], files)
    ensures SetupText("", files, Client).Ok?
    ensures SetupText(SetupText("", files, Client).value, files, Auto).Ok?
    ensures SetupText(SetupText("", files, Client).value, files, Auto) != SetupText("", files, Client)
  {
    SetupAcceptsIff([], files, Client);
    SetupAcceptsIff([], files, Auto);
    SetupLines("", files, Client);
    var client, auto := Setup([], files, Client).value, Setup([], files, Auto).value;
    OneMoreRun([], files, Client, Auto);
    RewrittenLines(client, files, Auto);
    Lengths();
    PinsDiffer([], files, Client, Auto);
    SplitUnlines(client);
    SplitUnlines(auto);
  }

  /** A card whose user-data is absent or empty, prepared for Client and later for Auto: the
      backup holds the tool's own Client document. */
  lemma OwnOutputIsBackedUp(card: Files, files: seq<ToolFile>)
    requires Read(card, USER_DATA_NAME) == "" && BackupName(USER_DATA_NAME) !in card
    requires PrepareCmdline(Read(card, CMDLINE_NAME), false).Ok?
    requires AllInstallable(files) && ModeFree([], files)
    ensures var client, auto := Flags(false, false, Client), Flags(false, false, Auto);
            var after := AfterRun(AfterRun(card, client, files), auto, files);
            && BackupName(USER_DATA_NAME) in after
            && Ok(after[BackupName(USER_DATA_NAME)]) == SetupText("", files, Client)
            && after[BackupName(USER_DATA_NAME)] != Read(card, USER_DATA_NAME)
  {
    var client, auto := Flags(false, false, Client), Flags(false, false, Auto);
    ModeSwitchHasEffect(files);
    var after := AfterRun(card, client, files);
    var config, cmdline, userData := PlanParts(card, client, files);
    assert PlanChanges(card, client, files).value[1] == cmdline;
    assert PlanChanges(card, client, files).value[2] == userData;
    RunWrites(card, client, files, cmdline);
    RunWrites(card, client, files, userData);
    PrepareTwice(cmdline.original, false);
    CreatedFileHasNoPristineBackup(card, client, auto, files);
    SetupIsNotEmpty("", files, Client);
  }

  /** Two such cards: one without the file, and one with the file there but empty. */
  lemma OwnOutputCards(files: seq<ToolFile>)
    requires AllInstallable(files) && ModeFree([], files)
    ensures forall card: Files | card in {map["cmdline.txt" := "quiet" + "\n"],
                                          map["cmdline.txt" := "quiet" + "\n", "user-data" := ""]} ::
              var after :=
                AfterRun(AfterRun(card, Flags(false, false, Client), files), Flags(false, false, Auto), files);
              && BackupName(USER_DATA_NAME) in after
              && after[BackupName(USER_DATA_NAME)] != Read(card, USER_DATA_NAME)
  {
    QuietIsUsable("quiet");
    var absent, empty: Files :=
      map["cmdline.txt" := "quiet" + "\n"], map["cmdline.txt" := "quiet" + "\n", "user-data" := ""];
    NamesDiffer();
    BackupNames(USER_DATA_NAME, CMDLINE_NAME);
    BackupNames(USER_DATA_NAME, USER_DATA_NAME);
    OwnOutputIsBackedUp(absent, files);
    OwnOutputIsBackedUp(empty, files);
  }

  lemma QuietIsUsable(token: string)
    requires token == "quiet"
    ensures PrepareCmdline(token + "\n", false).Ok?
  {
    assert Tokens([token]) && Join(" ", [token]) == token;
    ReadBack([token]);
  }

  lemma SetupIsNotEmpty(userData: string, files: seq<ToolFile>, mode: Mode)
    requires SetupText(userData, files, mode).Ok?
    ensures SetupText(userData, files, mode).value != ""
  {
    SetupLines(userData, files, mode);
    var lines := SplitLines(userData);
    PinSettles(Enable(lines, files).value, mode);
    ModeListsAreSound(mode);
  }
}
