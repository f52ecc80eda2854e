/** The files of a card after a run, by name. */
module CardOutcome {
  import opened Outcomes
  import opened Text
  import opened Cmdline
  import opened ConfigTxt
  import opened WriteFiles
  import opened UserDataRuns
  import opened UserData
  import opened Card
  import opened CardRuns
  import opened KeyStyle
  import opened PlannedCmdline

  /** What the card has under a name, and nothing for a file that is not there. */
  function Held(card: Files, name: string): string {
    if name in card then card[name] else ""
  }

  /** A run is accepted if and only if the card's command line has exactly one line with
      text, and none of the keys to edit in its user-data is in flow style. */
  lemma AcceptedIff(card: Files, flags: Flags, files: seq<ToolFile>)
    requires AllInstallable(files)
    ensures PlanChanges(card, flags, files).Ok? <==>
            && (exists i: nat :: OnlyLineAt(SplitLines(Held(card, "cmdline.txt")), i))
            && !FlowStyled(SplitLines(Held(card, "user-data")), "runcmd")
            && (files == [] || !FlowStyled(SplitLines(Held(card, "user-data")), "write_files"))
  {
    var cmdline, userData := Held(card, "cmdline.txt"), Held(card, "user-data");
    UsableIff(cmdline);
    SetupRefusedIff(userData, files, flags.mode);
    PreparedIff(cmdline, flags.freeUart);
    PlannedIff(card, flags, files, cmdline, userData);
  }

  lemma PlannedIff(card: Files, flags: Flags, files: seq<ToolFile>, cmdline: string, userData: string)
    requires cmdline == Held(card, "cmdline.txt") && userData == Held(card, "user-data")
    ensures PlanChanges(card, flags, files).Ok? <==>
            PrepareCmdline(cmdline, flags.freeUart).Ok? && SetupText(userData, files, flags.mode).Ok?
  {
    assert Read(card, CMDLINE_NAME) == cmdline && Read(card, USER_DATA_NAME) == userData;
  }

  lemma PreparedIff(cmdline: string, freeUart: bool)
    ensures PrepareCmdline(cmdline, freeUart).Ok? <==> SingleCmdline(cmdline).Ok?
  {
    if SingleCmdline(cmdline).Ok? {
      LineIsUsable(cmdline);
    }
  }

  /** What an accepted run writes: the overlay, the command line and the user-data, each
      from what the card had; the marker that turns ssh on, empty, if it is asked for and
      not there yet. A refused run writes nothing. */
  lemma RunWritesFiles(card: Files, flags: Flags, files: seq<ToolFile>)
    ensures var after := AfterRun(card, flags, files);
            if PlanChanges(card, flags, files).Err? then after == card
            else
              && "config.txt" in after && after["config.txt"] == EnableOverlay(Held(card, "config.txt"))
              && "cmdline.txt" in after
              && PrepareCmdline(Held(card, "cmdline.txt"), flags.freeUart) == Ok(after["cmdline.txt"])
              && "user-data" in after
              && SetupText(Held(card, "user-data"), files, flags.mode) == Ok(after["user-data"])
              && ("ssh" in after <==> "ssh" in card || flags.enableSsh)
              && ("ssh" in after ==> after["ssh"] == Held(card, "ssh"))
  {
    if PlanChanges(card, flags, files).Ok? {
      var config, cmdline, userData := PlanParts(card, flags, files);
      var changes := PlanChanges(card, flags, files).value;
      assert changes[0] == config && changes[1] == cmdline && changes[2] == userData;
      RunWrites(card, flags, files, config);
      RunWrites(card, flags, files, cmdline);
      RunWrites(card, flags, files, userData);
      SshAfter(card, flags, files);
    }
  }

  lemma SshAfter(card: Files, flags: Flags, files: seq<ToolFile>)
    requires PlanChanges(card, flags, files).Ok?
    ensures var after := AfterRun(card, flags, files);
            && ("ssh" in after <==> "ssh" in card || flags.enableSsh)
            && ("ssh" in after ==> after["ssh"] == Held(card, "ssh"))
  {
    var changes := PlanChanges(card, flags, files).value;
    var config, cmdline, userData := PlanParts(card, flags, files);
    var ssh := PlannedChange(SSH_NAME, "", "");
    var effective := Effective(card, changes);
    EffectiveFacts(card, changes);
    NamesDiffer();
    assert |changes| == 4 ==> changes[3] == ssh;
    if flags.enableSsh && SSH_NAME !in card {
      assert ssh in changes && ssh.IsNewFile(card);
      var k :| 0 <= k < |effective| && effective[k] == ssh;
      ChangedBy(card, effective, k);
    } else {
      forall i | 0 <= i < |effective| ensures effective[i].name != SSH_NAME {
        assert effective[i] in changes;
      }
      UntouchedBy(card, effective, SSH_NAME);
    }
  }

  /** The backup of a file the tool edits is its name with ".uc-orig". A run makes it if and
      only if there is none and the file had content that the run changes, and it holds that
      content; a backup that is there stays as it is. */
  lemma BackupIff(card: Files, flags: Flags, files: seq<ToolFile>, name: string)
    requires name in {"config.txt", "cmdline.txt", "user-data", "ssh"}
    ensures var after, backup := AfterRun(card, flags, files), name + ".uc-orig";
            && (backup in after <==>
                  || backup in card
                  || (Held(card, name) != "" && Held(after, name) != Held(card, name)))
            && (backup in after ==> after[backup] == if backup in card then card[backup] else Held(card, name))
  {
    var plan := PlanChanges(card, flags, files);
    if plan.Ok? {
      var effective := Effective(card, plan.value);
      var config, cmdline, userData := PlanParts(card, flags, files);
      EffectiveFacts(card, plan.value);
      if k :| 0 <= k < |effective| && effective[k].name == name {
        assert effective[k] in plan.value;
        ChangedBy(card, effective, k);
        EffectiveReadsCard(card, flags, files, effective[k]);
      } else {
        UntouchedBy(card, effective, name);
      }
    }
  }

  lemma {:induction false} OthersUntouched(card: Files, changes: seq<PlannedChange>, name: string)
    requires forall i | 0 <= i < |changes| :: changes[i].name != name && BackupName(changes[i].name) != name
    ensures name in AppliedAll(card, changes) <==> name in card
    ensures name in card ==> AppliedAll(card, changes)[name] == card[name]
    decreases |changes|
  {
    if changes != [] {
      OthersUntouched(Applied(card, changes[0]), changes[1..], name);
    }
  }

  /** The name is neither one of the files the tool edits nor one of their backups. */
  predicate Elsewhere(name: string) {
    && name != "config.txt" && name != "config.txt" + ".uc-orig"
    && name != "cmdline.txt" && name != "cmdline.txt" + ".uc-orig"
    && name != "user-data" && name != "user-data" + ".uc-orig"
    && name != "ssh" && name != "ssh" + ".uc-orig"
  }

  lemma IsElsewhere(name: string, target: string)
    requires Elsewhere(name) && Target(target)
    ensures name != target && name != BackupName(target)
  {
  }

  /** A run touches the four files and their backups, and no other file of the card. */
  lemma OtherFilesStay(card: Files, flags: Flags, files: seq<ToolFile>, name: string)
    requires Elsewhere(name)
    ensures name in AfterRun(card, flags, files) <==> name in card
    ensures name in card ==> AfterRun(card, flags, files)[name] == card[name]
  {
    var plan := PlanChanges(card, flags, files);
    if plan.Ok? {
      var effective := Effective(card, plan.value);
      var config, cmdline, userData := PlanParts(card, flags, files);
      EffectiveFacts(card, plan.value);
      forall i | 0 <= i < |effective| ensures effective[i].name != name && BackupName(effective[i].name) != name {
        assert effective[i] in plan.value;
        IsElsewhere(name, effective[i].name);
      }
      OthersUntouched(card, effective, name);
    }
  }
}
