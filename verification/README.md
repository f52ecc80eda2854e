# Universal Chess: a verified model

A Dafny model of five parts of the Universal Chess board software, with proofs of what
each is for. `dafny verify dfyconfig.toml` checks all of it.

| part | modules |
|---|---|
| Boot-partition editor | `Text`, `SequenceBlock`, `KeyStyle`, `DocumentLines`, `DocumentHeader`, `ModeCommands`, `GadgetModes`, `ModePinning`, `WriteFiles`, `AppendFacts`, `OtherBlocks`, `UserDataRuns`, `RepeatedRuns`, `RunOutcome`, `PinExactness`, `LiteralBlock`, `ScalarEnds`, `InstalledFiles`, `UserData`, `UnstableDocuments`, `Cmdline`, `CmdlineFacts`, `ConfigTxt`, `Card`, `CardRuns`, `PlannedCmdline`, `CardOutcome` |
| Deferred work | `PendingWork`, `SlotHistory`, `WakeProtocol`, `GameStep`, `MenuStep` |
| Image stream | `ImageStream` |
| Display probe | `DisplayProbe` |
| Clock | `ClockFormat` |

A cloud-config document is modelled twice. On sequences of lines the block scanner, the
insertions and the drops have short definitions, and the laws are proved there. On text
the edits split, insert and join as the original does. The `...Lines` lemmas of `UserData`
show that both agree on every text.

Loops and objects of the original are loops and classes here, each proved against a
function that the laws are about: the scanners, the pinning loop, the command-line edits,
the boot partition, the slots and queue, the two claims, the receiver and the display boot.
The wake protocol is a transition system whose runs are all interleavings; the main
thread's own requests are those of one more requester.

## Where the code and its documentation differ

The model follows the code. Each difference is a lemma with a concrete input or an exact
condition.

- Re-running the card tool is described as a no-op (tools/sd-card-setup/bootfs.py:507-508).
  Dropping superseded commands can uncover an empty line, which the run keeps and the next
  run drops; so can an empty last line that no step trims. `RunOutcome.SetupIdempotentIff`
  gives the condition on the given document and files, `UnstableDocuments.RerunCanDiffer` a
  document for every list of installed files.
- The enabling command is said to keep `runcmd` from being emptied of items
  (tools/sd-card-setup/bootfs.py:413-417). It is looked for in the whole document, so it need
  not be in the block: `RunOutcome.RunLeavesNoItemIff` gives the condition,
  `UnstableDocuments.RunCanEmptyTheBlock` and `UnstableDocuments.RunCanLeaveACommentOnly` two
  documents.
- Pinning assumes that the enabling command is already in `runcmd`
  (tools/sd-card-setup/bootfs.py:414-416), and a run appends that command where it is
  missing. In a document that lists a mode's command without it, the enabling command ends
  up below and undoes the mode: `GadgetModes.RunBootsIntoIff` gives the condition,
  `GadgetModes.EnablingComesLast` a document.
- `remove_serial_console` empties a line of serial consoles, which it then refuses:
  `CmdlineFacts.RemoveIdempotentIff`, `CmdlineFacts.SerialOnlyLine`.
- An overlay line that already stands under a model filter is taken as present:
  `ConfigTxt.OverlayReachesIff`, `ConfigTxt.OverlayUnderFilter`.
- A literal block is said to keep content byte for byte. It does if and only if the content
  is empty and nothing below is indented, or ends in exactly one newline, opens with text
  that no space leads after any empty lines, stands under an indentation of spaces, and the
  lines after the block end the scalar: `LiteralBlock.InstalledContentDecodes`. A line of
  more spaces behind the block joins the content: `LiteralBlock.SpacesJoinTheContent`.
- A backup is meant to be the pristine file. It is if and only if the file had content:
  `CardRuns.BackupIsPristineIff`. For an absent or empty one it is the tool's own output:
  `CardRuns.OwnOutputIsBackedUp`.
- `claim_menu_step` says it returns SHOW_MENU when nothing is waiting. It also does for a
  saved path that names neither screen, with a finished game still waiting:
  `MenuStep.MenuShownIff`, `MenuStep.MenuShownWhileFinishedWaits`.
- Image payloads of one to three bytes can be withheld, depending on the cuts:
  `ImageStream.LagIff`. The client never sends any, so its images never are.
- An unreadable status file is said to read as no report
  (src/universalchess/board/hardware_info.py:944-946). Bytes that are not UTF-8 raise
  instead, and so does JSON nested past the decoder's recursion limit:
  `DisplayProbe.AutomaticStartsIff`.

## Model

| member | source | states |
|---|---|---|
| Text.EnsureTrailingNewlineLines | tools/sd-card-setup/bootfs.py:98-100 | On every text that is not blank, ending it in exactly one newline is dropping the empty lines at its end and nothing else. |
| Text.UnlinesSplit | tools/sd-card-setup/bootfs.py:337-357 | Splitting a text into lines and writing them back gives the text, with the missing final newline added and nothing lost. |
| Text.StripParts | tools/sd-card-setup/bootfs.py:98-147 | What stripping takes from a text is white space at its two ends, and it leaves none there. |
| Text.SpaceCodes | tools/sd-card-setup/bootfs.py:85-100 | White space is the characters with the codes 9 to 13 and 32. |
| DocumentHeader.EndedOnce | tools/sd-card-setup/bootfs.py:98-100 | Text with something in it is ended by exactly one newline and keeps everything else; blank text is left alone. |
| SequenceBlock.FindTopLevelSequence | tools/sd-card-setup/bootfs.py:473-491 | The scan loop returns what `KeyStyle.FindIff` says of the document's characters: the first line that opens the key, a refusal when that line carries a flow-style value, or absence. |
| KeyStyle.FindIff | tools/sd-card-setup/bootfs.py:473-491 | On the characters of every document: refused if and only if the first line that starts with the key and a colon goes on, after white space, with something other than a comment; found at that line if it does not; absent if and only if there is none. |
| KeyStyle.StyleOfValue | tools/sd-card-setup/bootfs.py:486-490 | The same, spelled out: behind the colon and any padding, nothing or a comment leaves the key in block style, and any other value makes it flow style. |
| KeyStyle.AppendRefusedIff | tools/sd-card-setup/bootfs.py:325-357 | Adding a command refuses a text if and only if its `runcmd` is in flow style, adding a file if and only if its `write_files` is, and the refusal names the key. |
| KeyStyle.PinRefusedIff | tools/sd-card-setup/bootfs.py:406-460 | Pinning refuses a text if and only if its `runcmd` is in flow style. |
| KeyStyle.SetupRefusedIff | tools/sd-card-setup/enable_usb_gadget.py:501-523 | A run refuses a text if and only if `runcmd` is in flow style, or `write_files` is and there are files to add; the refusal names `write_files` first. |
| KeyStyle.FlowListIsRefused | tools/sd-card-setup/bootfs.py:486-489 | The text `runcmd: [ls]` is refused, whatever the command. |
| SequenceBlock.DescribeSequenceBlock | tools/sd-card-setup/bootfs.py:544-567 | The one-pass loop over cursor, insertion point and indentation returns the end of the maximal block under the key, past its last non-blank line, and the first item's indentation, or the default. |
| KeyStyle.DescribeIs | tools/sd-card-setup/bootfs.py:544-567 | On the characters of every document: the insertion point is behind the last line with text before the first that is neither blank, nor indented, nor an item at the margin; the indentation is what stands before the first dash, or two spaces. |
| SequenceBlock.SplitExists | tools/sd-card-setup/bootfs.py:473-567 | Every document that holds the key in block style divides into a part up to the key, a block that ends in a non-blank line, and a rest that does not continue the block. |
| SequenceBlock.SplitDescribe | tools/sd-card-setup/bootfs.py:544-567 | That division is the only one: the scan returns exactly its block end and its indentation, for every division given. |
| SequenceBlock.SplitInsert | tools/sd-card-setup/bootfs.py:544-567 | Lines inserted at the point the scan returns become the end of the block: the longer block, and nothing else, divides the new document. |
| SequenceBlock.InsertDescribes | tools/sd-card-setup/bootfs.py:544-567 | Key lemma: describing the block again after an insertion gives the end moved by exactly the inserted lines, and the same indentation when the block had an item or the lines open with one at the indentation they were given. |
| SequenceBlock.FindAcrossInert | tools/sd-card-setup/bootfs.py:473-491 | Inserting lines that cannot open a key changes neither the presence nor the style of any top-level key. |
| DocumentLines.AppendOne | tools/sd-card-setup/bootfs.py:325-357 | An absent command goes in as one line after the last non-blank line of the block, at the block's indentation; every other line stays, and the block re-describes to the extended end and the same indentation. |
| DocumentLines.AppendAllShape | tools/sd-card-setup/bootfs.py:428-435 | Appending a list adds exactly the commands the document lacks, in order, contiguously at the end of the block; empty lines at the document's end survive if and only if none of the commands was there before. |
| UserData.AppendRuncmdInPlace | tools/sd-card-setup/bootfs.py:325-357 | The imperative edit, with its scan loops, is the text function the refinement below is about, refusals included. |
| UserData.AppendRuncmdLines | tools/sd-card-setup/bootfs.py:325-357 | On every text, the edit of the text is the edit of its lines written back, so what is proved of lines holds of the file. |
| DocumentHeader.NewRuncmdText | tools/sd-card-setup/bootfs.py:570-587 | Where the key and the command are missing the result, as text, is the document ended once, under "#cloud-config" unless it opens with it, and then the new block with the command two spaces in. |
| DocumentHeader.HeldCommandText | tools/sd-card-setup/bootfs.py:346-349 | A text that holds the command already is ended by one newline and otherwise left as it is. |
| DocumentHeader.RuncmdHeaderIff | tools/sd-card-setup/bootfs.py:575-587 | After a command is added the document opens with "#cloud-config" if and only if it did before, or it had neither the key nor the command. |
| UserData.AppendWriteFileInPlace | tools/sd-card-setup/bootfs.py:494-527 | The imperative edit with its scan loops meets its text specification in all four cases. |
| UserData.AppendWriteFileLines | tools/sd-card-setup/bootfs.py:494-541 | On every text, installing a file in the text is installing it in its lines, rendering, trimming and joining included. |
| DocumentHeader.NewWriteFileText | tools/sd-card-setup/bootfs.py:518-541 | The same for a file. |
| DocumentHeader.HeldFileText | tools/sd-card-setup/bootfs.py:512-516 | A text that holds the file's path already is ended by one newline and otherwise left as it is. |
| DocumentHeader.WriteFileHeaderIff | tools/sd-card-setup/bootfs.py:494-587 | After a file is added the header is there under the same condition. |
| UserData.DropItemsLines | tools/sd-card-setup/bootfs.py:438-460 | Dropping items from the text drops them from its lines, in all three cases. |
| UserData.PinGadgetMode | tools/sd-card-setup/bootfs.py:406-435 | The drop-then-append loop, which gives up at the first refusal, computes the pinning specification; what that means for the board is `GadgetModes.PinReachesModeIff`. |
| UserData.PinModeLines | tools/sd-card-setup/bootfs.py:406-435 | Pinning a text is pinning its lines, for every text and mode. |
| UserData.SetupLines | tools/sd-card-setup/enable_usb_gadget.py:501-523 | The whole user-data part of a run, on text, is the run on lines. |
| ModeCommands.ModeListsAreSound | tools/sd-card-setup/bootfs.py:360-403 | Each mode's commands are well formed and distinct, and none of them is the enabling command. |
| ModeCommands.SurvivorsLead | tools/sd-card-setup/bootfs.py:360-435 | What a change of mode leaves of the old mode's commands is always the beginning of the new mode's own list, so a pinned block is in the new mode's order. |
| GadgetModes.ListReachesMode | tools/sd-card-setup/bootfs.py:360-403 | Run on a board in any state, the Client list leaves the watcher off, the client profile coming up by itself and up, and the shared one neither; the Shared list is its mirror image; the Auto list leaves the watcher on and both profiles as they were. The commands are read by their text. |
| GadgetModes.ReachesIff | tools/sd-card-setup/bootfs.py:360-403 | Commands of no other mode bring every board into the mode if and only if none of the mode's own is missing, in whatever order they stand and whatever stands between them. |
| GadgetModes.EnablingText | tools/sd-card-setup/bootfs.py:57 | The enabling command is the one the vendor's script is called by. |
| GadgetModes.PinReachesModeIff | tools/sd-card-setup/bootfs.py:406-460 | For every document that is not refused, the items of the pinned block bring the board into the chosen mode from every state if and only if no command of the mode stood only outside the block. |
| GadgetModes.RunBootsIntoIff | tools/sd-card-setup/enable_usb_gadget.py:501-523 | For every document a run accepts, the block it leaves boots the board into the chosen mode, from every state and whatever the vendor's script does, if and only if the mode's commands that were there before stood in the block behind the enabling command. |
| GadgetModes.RunBootsIntoText | tools/sd-card-setup/enable_usb_gadget.py:501-523 | The same on text. |
| GadgetModes.LastModeBoots | tools/sd-card-setup/enable_usb_gadget.py:501-523 | After every history of runs on a document without mode commands the board boots into the mode of the last run. |
| GadgetModes.EnablingComesLast | tools/sd-card-setup/bootfs.py:406-435 | A concrete document on which the enabling command ends up below a mode's command, so that the mode is not reached. |
| WriteFiles.EntryHeadFacts | tools/sd-card-setup/bootfs.py:530-541 | An entry opens with the path it is found by, then its permissions, owner and content key, at any indentation, and none of these lines can be taken for a top-level key. |
| DocumentHeader.EntryIndents | tools/sd-card-setup/bootfs.py:530-541 | The dash of an entry stands at the item's indentation and its keys line up two spaces in from it. |
| WriteFiles.EntryHasLine | tools/sd-card-setup/bootfs.py:530-541 | Among the lines the membership checks look for, an entry brings its marker and what its content holds, and nothing else, whatever the content. |
| LiteralBlock.InstallInserts | tools/sd-card-setup/bootfs.py:494-527 | Installing any absent file puts its whole entry, less the empty lines at its end, contiguously after the last non-blank line of the block and leaves every other line as it is; no content or path is excluded. |
| LiteralBlock.InstallExtendsBlock | tools/sd-card-setup/bootfs.py:494-567 | Describing the block again after an install gives the last line of the new entry that is not blank, and the same indentation, for every content. |
| LiteralBlock.NextEntryFollowsIff | tools/sd-card-setup/bootfs.py:544-567 | The next entry lines up behind this one if and only if this one's last line is not blank; content that ends in a line of blanks is split from it. |
| LiteralBlock.RenderedBodyDecodes | tools/sd-card-setup/bootfs.py:530-541 | Read by the literal-scalar rules of sections 8.1.1 and 8.1.2 of YAML 1.2.2, a rendered body gives back its content if and only if the content does not end in an empty line, its first line that is not empty has text and no leading space, and what follows ends the scalar. |
| LiteralBlock.ContentDecodesIff | tools/sd-card-setup/bootfs.py:530-541 | The exact condition for every content, indentation and following text, the empty content, a missing final newline, leading blank lines and tabbed indentation included. |
| LiteralBlock.InstalledContentDecodes | tools/sd-card-setup/bootfs.py:494-541 | In the edited document the installed content reads back as itself if and only if that condition holds of the content, the block's indentation and the lines after the block; no content is excluded. |
| LiteralBlock.NewBlockDecodes | tools/sd-card-setup/bootfs.py:518-541 | In a document without the key, the entry made at its end is read back under the same condition with nothing behind it. |
| LiteralBlock.SpacesJoinTheContent | tools/sd-card-setup/bootfs.py:494-527 | A concrete document with a line of more spaces than the content is indented by behind its block: no content but the empty one is read back from it. |
| InstalledFiles.InstalledFilesReadBack | tools/sd-card-setup/enable_usb_gadget.py:501-523 | After a whole run on a document with the key, each installed file reads back from the final document if and only if its content can, the block is indented by spaces, and either another entry follows and its own last line is not blank, or none follows, no entry before it ends in a blank line, and what followed the block at the start ends the scalar. |
| InstalledFiles.MadeFilesReadBack | tools/sd-card-setup/enable_usb_gadget.py:501-523 | The same after a whole run on a document without the key, where nothing follows the block. |
| ScalarEnds.DecodeByMargin | tools/sd-card-setup/bootfs.py:544-567 | How lines are read that the rest of a document follows is a matter of the blank lines between alone, for every rest that does not continue the block. |
| AppendFacts.FindAppend | tools/sd-card-setup/bootfs.py:325-357 | An edit under one key keeps that key in block style; any other key is there afterwards if and only if it was, in the style it was in. |
| OtherBlocks.OtherAfterAppend | tools/sd-card-setup/bootfs.py:325-357 | An append under one key leaves every other key's block line for line as it was, with the blank lines behind it. |
| OtherBlocks.OtherKept | tools/sd-card-setup/bootfs.py:438-460 | Whatever block lines are written in place of one key's block, a drop included, every other key keeps its block line for line. |
| AppendFacts.HasLineAppend | tools/sd-card-setup/bootfs.py:575-587 | An edit loses no line the membership check looks for, and adds only its own. |
| UserDataRuns.EnableEnables | tools/sd-card-setup/enable_usb_gadget.py:501-523 | After the shared part of a run every file and the enabling command are found by the checks a later run makes. |
| UserDataRuns.EnableStays | tools/sd-card-setup/enable_usb_gadget.py:501-523 | On such a document the shared part only drops empty lines at the end. |
| PinExactness.PinCounts | tools/sd-card-setup/bootfs.py:406-460 | How often each mode command stands in the document after pinning, for every document that is not refused, with the key or without: a wanted one as often as before or once, a superseded one only as often as it stood outside the block. |
| PinExactness.PinKeepsOutside | tools/sd-card-setup/bootfs.py:406-460 | Outside the block pinning neither adds nor drops any command, in every document that is not refused. |
| PinExactness.PinIsExact | tools/sd-card-setup/bootfs.py:406-460 | Where mode commands stand only in the block and none twice, pinning leaves exactly the chosen mode's commands in it, each once, and none elsewhere. |
| PinExactness.PinKeepsOthers | tools/sd-card-setup/bootfs.py:438-460 | Every line that is not a mode command stays, in order; only empty lines at the very end may go. |
| RepeatedRuns.PinTwice | tools/sd-card-setup/bootfs.py:406-435 | Pinning the same mode again never refuses and only drops empty lines at the end. |
| RepeatedRuns.PinIdempotentIff | tools/sd-card-setup/bootfs.py:406-435 | Pinning twice equals pinning once if and only if the given document does not both hold none of the mode's commands and end in an empty line, or in a block that does once its superseded items are gone. |
| UnstableDocuments.SpacedOutIsNotStable | tools/sd-card-setup/bootfs.py:406-460 | A concrete document without empty lines at its end on which pinning twice still differs from pinning once. |
| RepeatedRuns.PinKeepsEnabled | tools/sd-card-setup/bootfs.py:406-435 | Pinning undoes nothing of the shared part. |
| RepeatedRuns.SetupAcceptsIff | tools/sd-card-setup/enable_usb_gadget.py:501-523 | A run refuses a document if and only if a key it edits is in flow style. |
| RunOutcome.RunEndsIff | tools/sd-card-setup/enable_usb_gadget.py:501-523 | A run leaves an empty line at the document's end if and only if the given document and files meet a guard stated on them alone. |
| RunOutcome.SetupIdempotentIff | tools/sd-card-setup/enable_usb_gadget.py:501-523 | Running the whole pipeline again in the same mode changes nothing if and only if the given document and files did not meet that guard. |
| UnstableDocuments.RerunCanDiffer | tools/sd-card-setup/enable_usb_gadget.py:501-523 | For every list of installed files, a concrete document that the second run in the same mode rewrites. |
| UnstableDocuments.RerunCanDifferText | tools/sd-card-setup/enable_usb_gadget.py:501-523 | The same on text, with both runs accepted. |
| RunOutcome.BlockAfterRun | tools/sd-card-setup/bootfs.py:406-460 | The whole `runcmd` block after a run, line for line, from the given document and files: the old block and the enabling command, less what is superseded and the blank lines that uncovers, then the wanted commands no line held. |
| RunOutcome.RunHoldsCommand | tools/sd-card-setup/bootfs.py:325-357 | The check sees the whole document: after a run the enabling command, or a wanted one, stands in the block if and only if it stood there before or nowhere at all. |
| RunOutcome.RunLeavesNoItemIff | tools/sd-card-setup/bootfs.py:413-417 | A run leaves a `runcmd` key with no item under it if and only if the document has the key, holds the enabling command and all wanted commands somewhere, and every item of the given block is superseded; comments and blank lines in the block change nothing. |
| RunOutcome.RunEmptiesBlockIff | tools/sd-card-setup/bootfs.py:413-417 | A run leaves the key with no line at all under it if and only if, besides that, the given block has nothing but superseded items and blank lines. |
| RunOutcome.KeyAfterRunIff | tools/sd-card-setup/bootfs.py:325-357 | After a run the document has a `runcmd` key if and only if it had one, or the enabling command or a wanted one was not held. |
| UnstableDocuments.RunLeavesNoItem | tools/sd-card-setup/bootfs.py:413-417 | A family of failing documents, for every list of installed files and every block whose items are all superseded: the run keeps the key and leaves it without an item, under the lines that are none. |
| UnstableDocuments.RunCanEmptyTheBlock | tools/sd-card-setup/bootfs.py:413-417 | The concrete member with one superseded command: the key is still there afterwards, with nothing under it. |
| UnstableDocuments.RunCanLeaveACommentOnly | tools/sd-card-setup/bootfs.py:413-417 | The concrete member with a comment before that command: the key is still there afterwards, with the comment alone under it. |
| RepeatedRuns.FirstPin | tools/sd-card-setup/bootfs.py:406-460 | A document free of mode commands takes every mode's commands at one place, the same for all modes, made at the end when the key is missing. |
| RepeatedRuns.NextRun | tools/sd-card-setup/enable_usb_gadget.py:501-523 | A run in another mode replaces exactly the earlier mode's commands by the later one's. |
| RepeatedRuns.LastModeWins | tools/sd-card-setup/enable_usb_gadget.py:501-523 | Over every history of modes, the result is that of one run in the last mode. |
| UserData.LastModeWinsText | tools/sd-card-setup/enable_usb_gadget.py:501-523 | The same as text, refusals included, for every document without the tool's mode commands and without empty lines at its end. |
| UserData.RerunText | tools/sd-card-setup/enable_usb_gadget.py:501-523 | On every document: the second run changes nothing if and only if the guard was not met, and the third run never changes anything. |
| Cmdline.AddModulesLoad | tools/sd-card-setup/bootfs.py:155-187 | The loop that extends the first parameter and keeps the rest computes the token specification, and refuses an empty file or one with several lines. |
| CmdlineFacts.ReadBack | tools/sd-card-setup/bootfs.py:103-123 | What one edit writes the next edit reads as the same parameters; a line with none left is refused. |
| PlannedCmdline.UsableIff | tools/sd-card-setup/bootfs.py:103-123 | A command line is usable if and only if exactly one line of the file has text, and it is that line without the white space around it; a blank file is refused as empty and any other as several lines. |
| CmdlineFacts.ExtendFacts | tools/sd-card-setup/bootfs.py:170-187 | Extending keeps the modules there were, in front and in order, and holds a module if and only if it was there or was requested. |
| CmdlineFacts.ExtendByOne | tools/sd-card-setup/bootfs.py:170-187 | Modules go in one at a time, in order, each at the end unless it is there by then. |
| CmdlineFacts.AddModulesShape | tools/sd-card-setup/bootfs.py:155-187 | Every parameter but the first modules-load one stays where it is; that one names what it named, in order, then the requested modules it lacked; a parameter is appended only when there was none. |
| CmdlineFacts.AddIdempotent | tools/sd-card-setup/bootfs.py:155-187 | Adding the modules again changes no byte, for every accepted file. |
| CmdlineFacts.RemoveIdempotentIff | tools/sd-card-setup/bootfs.py:190-205 | Removing serial consoles again changes nothing if and only if the line has a parameter that is not one; a line of nothing else is refused the second time. |
| CmdlineFacts.SerialOnlyLine | tools/sd-card-setup/bootfs.py:190-205 | A concrete line of one serial console: removed, it is blank, and the blank line is refused. |
| CmdlineFacts.EditsCommuteIff | tools/sd-card-setup/bootfs.py:155-205 | The two edits commute as text if and only if the line has a parameter that is not a serial console. |
| CmdlineFacts.AddThenRemoveSettles | tools/sd-card-setup/enable_usb_gadget.py:450-500 | In the order a run uses, the two edits together are accepted on every usable file and repeating them changes nothing. |
| PlannedCmdline.PlannedKeeps | tools/sd-card-setup/enable_usb_gadget.py:480-493 | For every command line a run accepts: the first modules-load parameter names what it named and then those of "dwc2" and "g_ether" that were missing; every other parameter stays in order, serial consoles included, unless the UART is to be freed, and then exactly those that start with "console=serial" go. |
| ConfigTxt.OverlayMeaning | tools/sd-card-setup/bootfs.py:131-147 | Read as filter sections, the file means for every board what it meant before, followed by the overlay where the line was absent. |
| ConfigTxt.OverlayText | tools/sd-card-setup/bootfs.py:131-147 | The three lines that are added where no line reads as the overlay. |
| ConfigTxt.OverlayIdempotent | tools/sd-card-setup/bootfs.py:131-147 | A second application changes no byte. |
| ConfigTxt.OverlayReachesIff | tools/sd-card-setup/bootfs.py:131-147 | A board ends up with the overlay if and only if the line was absent or was already effective for that board. |
| ConfigTxt.OverlayUnderFilter | tools/sd-card-setup/bootfs.py:131-147 | A concrete file whose overlay line stands under a model filter and is left so. |
| Card.BootPartition.ApplyChange | tools/sd-card-setup/enable_usb_gadget.py:762-779 | Writes the new content, and the backup only if there is content to keep and no backup yet; no other file changes. |
| Card.BootPartition.Run | tools/sd-card-setup/enable_usb_gadget.py:1098-1120 | A run writes exactly the effective part of the plan, and nothing when the plan is refused. |
| Card.EffectiveFacts | tools/sd-card-setup/enable_usb_gadget.py:1098-1120 | The filter keeps exactly the changes that alter content or create a file. |
| Card.ChangedBy | tools/sd-card-setup/enable_usb_gadget.py:762-779 | After any list of changes each changed file holds its new content and its backup is untouched, created from the old content, or absent, exactly as the three cases say. |
| CardRuns.PlanParts | tools/sd-card-setup/enable_usb_gadget.py:450-537 | What a plan holds for each file in terms of the card it was made from; the command line in it is that of `PlannedCmdline.PlannedKeeps`. |
| CardOutcome.AcceptedIff | tools/sd-card-setup/enable_usb_gadget.py:450-537 | A run is accepted if and only if exactly one line of cmdline.txt has text and no key to edit in user-data is in flow style. |
| CardOutcome.RunWritesFiles | tools/sd-card-setup/enable_usb_gadget.py:450-537 | After an accepted run config.txt, cmdline.txt and user-data hold the three edits of what the card had, and the empty ssh marker is there if it was or is asked for; a refused run changes nothing. |
| CardOutcome.BackupIff | tools/sd-card-setup/enable_usb_gadget.py:762-779 | A run makes the backup ".uc-orig" of a file if and only if there was none and the file had content that the run changes; it holds that content, and one that was there stays. |
| CardOutcome.OtherFilesStay | tools/sd-card-setup/enable_usb_gadget.py:450-537 | No other file of the card is touched. |
| CardRuns.PrepareTwice | tools/sd-card-setup/enable_usb_gadget.py:450-500 | The command line a run writes is one the next run leaves alone. |
| CardRuns.PlanApplyPlan | tools/sd-card-setup/enable_usb_gadget.py:450-537 | Plan, apply, plan again: the second plan is accepted, creates nothing, leaves config.txt, cmdline.txt and ssh alone, and is empty if and only if user-data did not meet the guard. |
| CardRuns.SecondRunSettles | tools/sd-card-setup/enable_usb_gadget.py:1098-1120 | From the second run with the same flags on, the card never changes again. |
| CardRuns.BackupsStayPristine | tools/sd-card-setup/enable_usb_gadget.py:762-779 | Over every sequence of runs with any flags, a file that had content is unchanged and without backup, or its backup holds that first content for good. |
| CardRuns.BackupIsPristineIff | tools/sd-card-setup/enable_usb_gadget.py:762-779 | For every file the tool edits and every sequence of runs with any flags, a backup the tool made is the file as it was if and only if the file had content; of an absent or empty file it is some output of the tool. |
| CardRuns.CreatedFileHasNoPristineBackup | tools/sd-card-setup/enable_usb_gadget.py:762-779 | A user-data file that was absent or empty is backed up, by the run that changes it again, as what the first run wrote. |
| CardRuns.OwnOutputIsBackedUp | tools/sd-card-setup/enable_usb_gadget.py:762-779 | Preparing a card for Client and later for Auto, with user-data absent or empty, does that: the second run has an effect and its backup is the Client document. |
| CardRuns.OwnOutputCards | tools/sd-card-setup/enable_usb_gadget.py:762-779 | Two concrete cards it happens on. |
| PendingWork.Slot.Request | src/universalchess/app/pending_work.py:69-79 | Replaces what is pending and sets the shared wake event. |
| PendingWork.Slot.Take | src/universalchess/app/pending_work.py:81-92 | Returns what is pending and empties the slot in one step. |
| PendingWork.DeferredWork.Take | src/universalchess/app/pending_work.py:166-242 | Taking from one slot leaves every other slot of the shared record as it is. |
| SlotHistory.Perform | src/universalchess/app/pending_work.py:38-111 | A real slot put through any interleaving of operations ends as the history says, and each take returns what the history says. |
| SlotHistory.TakeReturnsItsRequest | src/universalchess/app/pending_work.py:81-92 | In every interleaving, a take returns a request if and only if that request's one fate is this take; it is the newest since the last take or clear. |
| SlotHistory.FatesAreDistinct | src/universalchess/app/pending_work.py:69-111 | No two requests share a fate, so none is returned twice. |
| SlotHistory.RequestsAreConserved | src/universalchess/app/pending_work.py:69-111 | Requests made are those returned, replaced, discarded and still pending, each counted once. |
| SlotHistory.TornFormLosesARequest | src/universalchess/app/pending_work.py:8-19 | The two-statement test and clear admits a trace in which a request has no fate at all. |
| SlotHistory.PerformOnQueue | src/universalchess/app/pending_work.py:114-163 | A real queue put through any interleaving of operations ends, and has returned, as the history says. |
| SlotHistory.QueueKeepsOrder | src/universalchess/app/pending_work.py:131-163 | Between clears, the events returned followed by those queued are those added, in order, none lost and none twice. |
| SlotHistory.DrainIntoGame | src/universalchess/app/board_app.py:2891-2897 | The drain takes every queued event and every event that handling one adds, oldest first, and ends when that adds finitely many; it hands on exactly those taken while the game has a controller or a protocol, in order. |
| SlotHistory.AllHanded | src/universalchess/app/board_app.py:2891-2897 | Where the game has one throughout, every event taken is handed on. |
| WakeProtocol.RunIsSafe | src/universalchess/app/board_app.py:7778-7943 | Inductive invariant over every interleaving: a request in a slot the loop has looked past since it last cleared the event is covered by the event or by a requester about to set it. |
| WakeProtocol.NoLostWakeup | src/universalchess/app/pending_work.py:233-242 | In every interleaving, when the loop waits with the event clear, each polled slot is empty or its requester is about to set the event. |
| WakeProtocol.PolledSlots | src/universalchess/app/game_step.py:57-63 | The polled slots, by name. |
| WakeProtocol.WaitsOnlyWhenNothingIsPending | src/universalchess/app/pending_work.py:233-242 | With no request half made, only an empty set of polled slots lets the wait go on. |
| WakeProtocol.RequestEndsTheWait | src/universalchess/app/pending_work.py:69-79 | A request made while the loop waits idle ends the wait, and the pass that follows works on that slot without any timeout. |
| WakeProtocol.HigherRanksWereEmpty | src/universalchess/app/game_step.py:57-102 | In every interleaving, a loop that reaches a rank looked at each higher rank earlier in the same pass and found it empty at that moment. |
| WakeProtocol.PassClaims | src/universalchess/app/board_app.py:7778-7943 | An undisturbed pass of the step-by-step loop, a pending display profile included, ends in exactly the state and step of the one-call claim, the reason of a rebuild included, or in the wait. |
| WakeProtocol.OtherOrderLosesAWakeup | src/universalchess/app/pending_work.py:75-79 | With the event set before the slot is written there is a run that waits on a clear event with a rebuild pending and nobody left to wake it. |
| GameStep.ClaimGameStep | src/universalchess/app/game_step.py:76-102 | The loop over the ranking, taking or peeking, computes the claim and leaves exactly its state; `GameStep.ClaimByName` says which claim that is. |
| GameStep.ClaimByName | src/universalchess/app/game_step.py:57-102 | Slot by slot, for every pending work: a new game first, then the players, the layout, the settings and the board command, each with its own action, its slot emptied and every other left alone; a rebuild carries and empties the Lichess reason, and the board command stays. |
| GameStep.ClaimIsExact | src/universalchess/app/game_step.py:76-102 | The claim performs the highest-ranked pending work and touches nothing else but the Lichess reason of a rebuild; it idles if and only if nothing ranked is pending. |
| GameStep.DrainsInRankOrder | src/universalchess/app/game_step.py:57-102 | With no new requests any set of pending work is performed in rank order, each item once, in as many passes as it has members. |
| GameStep.ReasonAloneStays | src/universalchess/app/game_step.py:92-99 | Whatever else is pending, a reason without a rebuild is not claimed and waits. |
| MenuStep.ClaimMenuStep | src/universalchess/app/menu_step.py:169-230 | The seven branches compute the claim the ranking states, including which flag, slot or path is consumed. |
| MenuStep.ClaimByName | src/universalchess/app/menu_step.py:134-230 | Condition by condition, for every board: what the pass does, the transport of the waiting client, the submenu or the path it carries, and what is left. |
| MenuStep.RestoreByName | src/universalchess/app/menu_step.py:97-131 | What a restart reopens for every saved path, by the menus the path names. |
| MenuStep.PassTouchesOne | src/universalchess/app/menu_step.py:169-230 | A pass leaves every condition but the one it acts on as it was, with what it carries, and consumes that one unless it is a board command or queued events. |
| MenuStep.MenuShownIff | src/universalchess/app/menu_step.py:134-230 | The main menu is drawn if and only if nothing waits or the first thing waiting is a saved path that names neither screen. |
| MenuStep.MenuShownWhileFinishedWaits | src/universalchess/app/menu_step.py:192-230 | A concrete state in which the main menu is drawn while a finished position game still waits. |
| MenuStep.PassAdvances | src/universalchess/app/menu_step.py:169-230 | After a pass and its servicing the condition served is gone and the ones below are as they were, but for the piece events a client's game drains. |
| MenuStep.ServedInRankOrder | src/universalchess/app/menu_step.py:169-230 | With no new requests every set of conditions is answered in rank order, each once, and then nothing waits. |
| MenuStep.RestartAgreesWithSuspension | src/universalchess/app/menu_step.py:97-166 | A restart and a suspended game reopen the same screen and the same Settings entry for every saved path, and differ only in the position and the path carried. |
| MenuStep.RestoreIsOneShot | src/universalchess/app/menu_step.py:54-71 | The pass that acts on a planned restore leaves a restore that asks for nothing. |
| MenuStep.Session.TakeMenuPath | src/universalchess/app/session.py:69-78 | Reading the saved path and forgetting it are one step. |
| MenuStep.Session.CaptureMenuPath | src/universalchess/app/session.py:65-67 | The path captured replaces the one before and is what the next menu pass finds; the screen shown stays. |
| MenuStep.Session.ForgetMenuPath | src/universalchess/app/session.py:80-83 | A path forgotten is found by no menu pass; the screen shown stays. |
| MenuStep.Session.ShowingMenu | src/universalchess/app/session.py:33-47 | Every screen takes its input from a menu or from the game, and none from both. |
| ImageStream.Receiver.OnData | scripts/vm-setup/epaper_proxy_server.py:138-158 | The nested loops over buffer and expected_size terminate and compute one step of the reassembly. |
| ImageStream.ImageRoundTrip | scripts/vm-setup/epaper_proxy_client.py:39-57 | Every image the client can pack is unpacked as itself. |
| ImageStream.MessageLayout | scripts/vm-setup/epaper_proxy_client.py:39-52 | The message byte by byte: width, height and mode length, most significant byte first, then the mode and the pixels; it can be packed if and only if its numbers fit four bytes. |
| ImageStream.ReadingLayout | scripts/vm-setup/epaper_proxy_server.py:73-82 | The server reads the same layout in any message of at least twelve bytes, the mode cut off where the message ends. |
| ImageStream.FrameLayout | scripts/vm-setup/epaper_proxy_client.py:54-57 | A frame is its payload's length in four bytes, most significant first, and the payload. |
| ImageStream.CompleteEncode | scripts/vm-setup/epaper_proxy_client.py:55-57 | Frames written are read back in order, whatever bytes follow. |
| ImageStream.ChunksConserve | scripts/vm-setup/epaper_proxy_server.py:134-158 | For every stream of bytes and every chunking, what was delivered, framed again, followed by what is carried, is what was received. |
| ImageStream.DeliveredAreTheCompleteFrames | scripts/vm-setup/epaper_proxy_server.py:134-158 | After any chunks, the payloads delivered and at most one withheld are exactly the complete frames of the bytes received, wherever the chunks were cut. |
| ImageStream.NoShortFrameNoLag | scripts/vm-setup/epaper_proxy_server.py:146-158 | Without complete frames of one to three bytes nothing is withheld. |
| ImageStream.LagIff | scripts/vm-setup/epaper_proxy_server.py:146-158 | On the bytes and the cuts alone: delivery lags if and only if the last complete frame has a payload of one to three bytes, fewer than four bytes have come since its header, and some chunk ended after that header and before the payload's end. |
| ImageStream.ShortPayloadWaits | scripts/vm-setup/epaper_proxy_server.py:146-158 | The failing inputs in their simplest form: each payload of one to three bytes, alone in the stream, with its header in a chunk of its own. |
| ImageStream.DeliveredIsPrefix | scripts/vm-setup/epaper_proxy_server.py:134-158 | At any point what has been delivered is a beginning of what was sent, short payloads included. |
| ImageStream.ImagesArrive | scripts/vm-setup/epaper_proxy_server.py:73-158 | End to end: once the bytes of any series of images have arrived in any chunks, exactly those images were handled and nothing is carried. |
| DisplayProbe.Board.InitDisplay | src/universalchess/app/display_boot.py:194-290 | Reading the record, probing, resolving and publishing step by step gives the boot whose reports `DisplayProbe.ExplicitReports` and `DisplayProbe.BootReports` state: the manager, the splash and the record written, or nothing where reading raises. |
| DisplayProbe.Board.FinishDisplayInit | src/universalchess/app/display_boot.py:293-335 | The record published after a boot, with a controller only when the panel came up. |
| DisplayProbe.ExplicitReports | src/universalchess/app/display_boot.py:231-249 | For every disk, panel key, controller and driver: a boot with a named panel starts, probes that driver alone, and reports the panel up if and only if it answered; otherwise the error and timeout are the driver's own and no controller is active. The record holds exactly that and the key. |
| DisplayProbe.AutomaticRecords | src/universalchess/app/display_boot.py:293-335 | The record an Automatic boot leaves, field by field, from what it reports. |
| DisplayProbe.OrderIff | src/universalchess/board/display_selection.py:90-127 | SSD1680 is probed first if and only if the record on disk says that it drove the panel and names no other panel setting. |
| DisplayProbe.PriorTimeoutIff | src/universalchess/app/display_boot.py:260-265 | The timeout carried over is what an object on disk says, and none from anything else. |
| DisplayProbe.FalsyIff | src/universalchess/board/display_selection.py:108-110 | What a value read from the file counts as false. |
| DisplayProbe.InitializedIff | src/universalchess/board/display_selection.py:130-218 | An Automatic boot drives the panel if and only if its first driver answers, or the second does and the first was a hint or timed out; the manager is the one built for the controller recorded. |
| DisplayProbe.BootReports | src/universalchess/board/display_selection.py:150-218 | An error is reported if and only if no driver came up, and it is the last tried driver's; the BUSY timeout is the UC8151D driver's own if it was tried and the earlier record's otherwise; a second probe is made exactly after a failed hint or a timeout. |
| DisplayProbe.AutomaticFindsTheGlass | src/universalchess/app/display_boot.py:260-290 | From every status file that reading does not raise on, whatever it holds, an Automatic boot on either glass ends with that glass's driver up. |
| DisplayProbe.AutomaticStartsIff | src/universalchess/board/hardware_info.py:941-956 | From anything on disk, an Automatic boot starts, and drives the glass, if and only if reading the status file does not raise, as it does on bytes that are not UTF-8 and on JSON nested past the decoder's recursion limit. |
| DisplayProbe.GarbledStays | src/universalchess/board/hardware_info.py:941-956 | No number of Automatic boots repairs a file damaged in either way. |
| DisplayProbe.HintOfPublished | src/universalchess/board/display_selection.py:90-115 | What a published record makes the next boot try first. |
| DisplayProbe.SecondBootProbesOnce | src/universalchess/board/display_selection.py:90-127 | The boot after it on the same glass needs one probe. |
| DisplayProbe.TimeoutIsNeverForgotten | src/universalchess/board/display_selection.py:150-218 | Over every sequence of boots, swaps and lost or damaged records from no record, an Automatic record with SSD1680 active has busy_timeout true. |
| DisplayProbe.SwitchForgetsTimeout | src/universalchess/app/display_boot.py:170-191 | A live switch to Automatic breaks that, and later boots never restore it. |
| ClockFormat.ParseInverts | src/universalchess/clock_format.py:18-41 | A parser that sees only the text reads every display back as the time truncated to the resolution shown. |
| ClockFormat.ReadingByRange | src/universalchess/clock_format.py:18-41 | That resolution is the second below ten hours, the minute below a day and the hour above; negative times read as none. |
| ClockFormat.ShapeIff | src/universalchess/clock_format.py:33-41 | " day " stands in the display if and only if the time is from one day to below two, " days " from two; minutes are named from ten hours to a day, and colons stand below ten hours, one below an hour and two from there. |
| ClockFormat.LargestUnitLeads | src/universalchess/clock_format.py:26-41 | The first number is the whole days, hours or minutes, and seconds are the last two digits. |
| ClockFormat.NumbersArePlain | src/universalchess/clock_format.py:33-41 | No number is padded but the two digits after a colon. |
| ClockFormat.Unambiguous | src/universalchess/clock_format.py:18-41 | Two times have the same display if and only if they agree to the resolution shown, across all four shapes. |
| ClockFormat.ReadingIsMonotone | src/universalchess/clock_format.py:18-41 | Reading displays back keeps the order of times and is never more than the time nor an hour less. |

## Left out

- Sockets, serial ports, SPI and GPIO, subprocesses, D-Bus, the web server, the database, PIL and python-chess: probe results, image bytes and file contents are parameters instead.
- The contents of the scripts the tool installs: `files` stands for any list of files whose path can be found again and whose content does not end in an empty line.
- Line breaks other than the newline: `splitlines` also breaks at carriage returns, \v, \f, \x1c to \x1e and the Unicode separators. White space beyond ASCII: `strip` and `split` also take \x1c to \x1f and Unicode spaces. Here a line ends at a newline only, and \v and \f are white space inside a line.
- YAML beyond the line-block view and the literal scalar, and the PyYAML validation of the result.
- The refusal of an unknown mode name: a mode is one of three values.
- Confirmation, dry runs, diff output and aborted runs, which write nothing; failed writes.
- Fractional seconds: the clock takes the whole seconds it would truncate to.
- UTF-8 decoding of the image mode, which is kept as bytes, and the image decoding after it.
- The record's `written_at` time and the failure to write it, log entries, and the three-colour and partial-refresh settings of a driver.
- Live panel switches in the invariant over boots: `DisplayProbe.SwitchForgetsTimeout` says why.
- What the game does with a piece event it is handed.
- Real time in the wait: a timeout may happen at any step of it.
- `bind_wake` after construction, and a slot without a wake event.
- The order of live piece events against queued ones that are still being forwarded, and the choice in `field_callback` between the two (src/universalchess/app/board_app.py:7139-7170).
- `player_rebuild` and `lichess_next` as one request: they are two, and the claim takes whatever reason is there.
- The rest of `board_app.py`: menus, game wiring, resume, coaching, shutdown.
- The vendor's script behind the enabling command: the board boots with every effect it might have. Other commands of a block leave the gadget alone.
- PinExactness.PinIsExact: asks that the command does not stand outside the block and not twice, since the tool drops commands only inside the block; `PinExactness.PinCounts` covers every other document.
- RepeatedRuns.LastModeWins: asks for a document without empty lines at its end and without mode commands, as an earlier one elsewhere in the document counts as present and is never moved.
- MenuStep.ServedInRankOrder: a board command is served by taking it and a game that is entered drains the queued events; whatever else the handlers do is not modelled.
- WakeProtocol.RequestEndsTheWait: for a requester and a loop that nothing disturbs; under interference safety is proved, not fairness between threads.
- GameStep.DrainsInRankOrder: the handlers are taken to request nothing themselves.
