# DeepSeek MCP: verified commit, recovery and agent protocols

The system lets a parent agent delegate work to a sub-agent that edits files in a
workspace. Its hard part is what happens between steps: another program writes the
same file, a process is killed, a parent dies and leaves a child behind, a message
arrives while an answer is being finished. This project models those protocols with
every interference, failure and kill left open, and proves what they promise.

**Commit under interference.** `Files` models one directory as a map from names to file
versions. An `Env` oracle decides, at every system call, whether a rival first changes
the target and whether the call fails, so a lemma over all `Env` covers all
interleavings. `SwapOrPreserve` is the one abstract specification: the environment owns
the target, the protocol may rearrange versions but may drop only its own transaction
or, once that is published, the baseline. `PosixCommit`, `CodexCommit` and
`WindowsCommit` hold the implementations; each is a set of methods over a `Folder` that
is proved equal to a function of the oracle, and each such function is proved to refine
the specification in every final and every intermediate state. The log kept by `Folder`
is the list of steps that took effect; its prefixes are the states a kill can leave.
`PosixOutcomes`, `CodexOutcomes` and `WindowsOutcomes` say when each outcome is due, over the
failures, the names drawn and what the target shows.

**Crash-safe mutations.** `Journal` is the record store with its strict codec
(`JsonText`), its temporary files and its atomic publish, with the history of all
contents. `ToolEvents` and `ToolCall` are the child's event lines, their truncation
anywhere, and the parent's verdict; `ToolOutcomes` states that verdict in every case by
what the child wrote and what arrived. `Recovery` is the protocol as a step system over
servers, sessions, tool children, inherited lock descriptors, the journal and the
workspace; every process may be killed at any step.

**State machines on top.** `Jobs` is the job manager: slot, lease, mailbox, cancellation,
usage claims, pruning; `JobOutcomes` says when each operation is granted and what it leaves
behind. `AgentLoop` is the turn loop over an oracle of replies, tool results, messages and
cancellations; `AgentRun` is the loop with its mutable state, proved equal to it;
`AgentOutcomes` holds its books and the reason of every halt.

**Algorithms.** `Glob` and `Walk` are the pattern automaton and the bounded traversal;
`EditSize` is string replacement and the size that is checked in advance.

## What turned out not to hold

The following expectations fail. The code is modelled as it is; for each, a lemma says
exactly when it fails, and another shows a run in which it does.

- *An exception from a POSIX write means the replacement is not at the target.* A write
  whose replacement stays published raises if and only if the report of a post-commit
  warning itself raised or a termination signal arrived during the write: the signal is
  held back while the commit runs and raises when the mask is restored
  (`PosixCommit.WriteDishonestIff`; runs in `PosixCommit.LostWarningExample` and
  `PosixCommit.TerminatedExample`). The tool around the write reports its warning once more,
  and the same holds with that report included (`PosixCommit.ToolDishonestIff`).
- *A refused Windows commit is rolled back.* The replacement stays published exactly when
  it took effect in full and then either the bounded reader refuses the displaced file, or
  a rollback is due and the parent path cannot be resolved for it
  (`WindowsCommit.CommitLeftIff`; runs in `WindowsCommit.DisplacedRejectedExample` and
  `WindowsCommit.RollbackUnresolvedExample`).
- *The message of a failed Windows rollback names the file that holds the original.* The
  warning, and the exception for an unresolved parent path, name a file that is not there
  exactly when the original was deleted as the baseline and only the close of its handle
  failed (`WindowsCommit.WarnedNameExact`; a run in
  `WindowsCommit.MissingOriginalExample`).
- *A failed Codex replacement is rolled back.* It stays in place exactly when the exchange
  took effect and the displaced file cannot be read, or is the baseline and cannot be
  removed, or is another file and the exchange back does not happen
  (`CodexCommit.CommitExistingLeftIff`; one run for each of the five outcomes, from
  `CodexCommit.AuditRaisedExample` to `CodexCommit.SupersededExample`), or when it was
  committed and the directory sync of its caller raises (`CodexCommit.InstallLeftIff`, which
  covers creation too; a run in `CodexCommit.UnsyncedExample`).
- *A Codex compare-and-swap on Windows without success leaves nothing behind.* The transaction
  stays exactly when the first replacement took effect and the displaced file cannot be read,
  or is another one and the second replacement is not made or changes nothing
  (`WindowsCommit.CasLeftIff`; a run in `WindowsCommit.NotTakenBackExample`).
- *The Codex Windows conflict names the file it kept.* The name is wrong exactly when
  closing the handle fails after the rename (`WindowsCommit.PreserveNameExact`; a run in
  `WindowsCommit.PreserveNameExample`).
- *Escaped strings read back as written.* They do if and only if no high surrogate is
  directly followed by a low one (`JsonText.StringRoundTrip`). The scanner itself yields such
  a string from a high surrogate that was escaped and a low one that was not
  (`JsonText.SplitPairExample`).
- *Every mutation a child made visible is reported by its parent.* It is, once the
  child's event line has arrived, if and only if the whole output fits 1 MiB
  (`ToolCall.EffectIsReported`). A reply may fill that limit alone, since it repeats the
  path as it was given, and its event lines come on top (`ToolCall.UnreportedExample`). The
  journal still holds the mutation (`Recovery.EffectIsJournaled`).

## Model

| member | source | states |
|---|---|---|
| `SwapOrPreserve.NothingVanishes` | src/deepseek_mcp/posix_atomic_commit.py:143-259 | in any behaviour of the abstract specification a version held once is held at every later moment, or a step between accounts for it: a rival overwrote it or the protocol was allowed to drop it |
| `SwapOrPreserve.StepRefines` | src/deepseek_mcp/posix_atomic_commit.py:63-95 | every permitted directory operation is a step of the abstract specification |
| `SwapOrPreserve.Refines` | src/deepseek_mcp/posix_atomic_commit.py:221-259 | every run whose deletions are permitted is a behaviour of the abstract specification |
| `SwapOrPreserve.NoLostVersion` | src/deepseek_mcp/posix_atomic_commit.py:143-259 | between any two moments of such a run each version survives under some name, unless a rival overwrote it or it was ours, or it was the baseline while the transaction stood published |
| `Files.Folder.Try` | src/deepseek_mcp/posix_atomic_commit.py:63-87 | a primitive call as the rival's turn, then failure, refusal or the atomic effect |
| `Files.TurnTaken` | src/deepseek_mcp/posix_atomic_commit.py:221-259 | before a primitive a rival may have put anything at the target, and touches no other name |
| `Files.RefusedTaken` | src/deepseek_mcp/posix_atomic_commit.py:63-87 | a refused move or link says that its destination exists if and only if it does |
| `PosixCommit.ParkDisplaced` | src/deepseek_mcp/posix_atomic_commit.py:156-164 | up to three fresh recovery names are tried and the displaced file ends under one or stays |
| `PosixCommit.DiscardOwned` | src/deepseek_mcp/posix_atomic_commit.py:143-148 | a name is unlinked only after it was seen to hold exactly the expected version |
| `PosixCommit.Restore` | src/deepseek_mcp/posix_atomic_commit.py:174-218 | the exchange back, the removal of the own file and the outcome of each failure |
| `PosixCommit.Commit` | src/deepseek_mcp/posix_atomic_commit.py:221-259 | the whole commit and its outcome, equal to its specification for every oracle |
| `PosixCommit.CommitKeeps` | src/deepseek_mcp/posix_atomic_commit.py:221-259 | for any rivals and failures every deletion of the commit is permitted: the commit refines swap-or-preserve |
| `PosixCommit.CommitLosesNothing` | src/deepseek_mcp/posix_atomic_commit.py:143-259 | at every moment of a commit no version is lost |
| `PosixCommit.CommitHonest` | src/deepseek_mcp/posix_atomic_commit.py:167-259 | a normal return means the exchange displaced a regular file with exactly the device, inode, mode, size, time and digest of the baseline (or the target was absent) and nothing was put back; a refusal means untouched or put back; a committed warning means published and not rolled back |
| `PosixCommit.CommitUndisturbed` | src/deepseek_mcp/posix_atomic_commit.py:221-259 | without rivals and failures the commit swaps exactly over the file that the baseline describes in every field, and restores any other |
| `PosixCommit.FinishPosixCommit` | src/deepseek_mcp/file_io.py:176-208 | commit, warning report, cleanup and confirmation in their order, with each outcome, and a termination signal that was held back meanwhile |
| `PosixCommit.Settle` | src/deepseek_mcp/file_io.py:189-220 | what follows a commit by its outcome: report, `fsync`, final close, cleanup |
| `PosixCommit.Prepare` | src/deepseek_mcp/file_io.py:236-248 | the temporary file, the intent and the second validation, each failed or interrupted, with the cleanup that follows |
| `PosixCommit.WritePosix` | src/deepseek_mcp/file_io.py:223-267 | the whole write: baseline, temporary file, intent, second validation, commit; a termination signal may arrive during any primitive |
| `PosixCommit.WriteKeeps` | src/deepseek_mcp/file_io.py:211-258 | the write with its cleanup refines swap-or-preserve |
| `PosixCommit.WriteLosesNothing` | src/deepseek_mcp/file_io.py:211-258 | at every moment at which a write may be killed no version is lost |
| `PosixCommit.WriteIsHonest` | src/deepseek_mcp/file_io.py:189-208 | a write that returns swapped exactly the expected version; one that raises left the target alone or gave it back, unless a report raised or it was terminated |
| `PosixCommit.WriteDishonestIff` | src/deepseek_mcp/file_io.py:176-208 | a write whose replacement stays published raises if and only if a warning report raised or a termination signal arrived during the write; no report is made of a replacement that was taken back |
| `PosixCommit.LostWarningExample` | src/deepseek_mcp/file_io.py:189-208 | a run in which the caller sees an ordinary exception and the replacement is at the target |
| `PosixCommit.TerminatedExample` | src/deepseek_mcp/file_io.py:176-193 | a run without any failure that publishes, warns of nothing and raises because of a termination signal |
| `PosixCommit.WriteLog` | src/deepseek_mcp/file_io.py:189-251 | a write that returned has its intent on record, one that returned with a warning has reported it, and no other intent is ever recorded |
| `PosixCommit.IntentBeforeEffect` | src/deepseek_mcp/file_io.py:241-251 | at every moment, if the write has touched the target, the intent with the digest of the replacement is on record |
| `PosixCommit.ExecuteWrite` | src/deepseek_mcp/tools.py:85-106 | the write of a tool and the second report of its warning, which may raise or be interrupted too |
| `PosixCommit.ToolLog` | src/deepseek_mcp/tools.py:40-42 | a tool run that succeeded has its intent on record, one that succeeded with a warning has reported it twice, and no other intent is ever recorded |
| `PosixCommit.ToolIsHonest` | src/deepseek_mcp/tools.py:85-106 | the history of the target for each result of the whole tool run |
| `PosixCommit.ToolDishonestIff` | src/deepseek_mcp/tools.py:98-106 | a tool whose replacement stays published fails if and only if one of its reports raised, the second one included, or a termination signal arrived |
| `PosixCommit.ToolIntentBeforeEffect` | src/deepseek_mcp/file_io.py:241-251 | at every moment of the whole tool run, if the target has been touched, the intent with the digest of the replacement is on record |
| `PosixOutcomes.ParkDue` | src/deepseek_mcp/posix_atomic_commit.py:156-164 | which of the three tries parks the displaced file: the first whose name is free, unless a try before it fails |
| `PosixOutcomes.AuditDue` | src/deepseek_mcp/posix_atomic_commit.py:134-259 | the audit returns if and only if the parked file can be read, is the baseline and can be removed; a warning, a conflict and each other refusal have their exact conditions |
| `PosixOutcomes.CommitDue` | src/deepseek_mcp/posix_atomic_commit.py:221-259 | every outcome of a commit has its reason, over the failures, the rivals, the names drawn and what the target shows |
| `PosixOutcomes.PrepareDue` | src/deepseek_mcp/file_io.py:236-248 | the preparation goes on if and only if the file is filled, the intent recorded and the target unmoved, and otherwise leaves no private file unless its removal fails |
| `PosixOutcomes.RecordDue` | src/deepseek_mcp/file_io.py:241-244 | the intent is on record if and only if the file was filled and the record published, and also when publishing it raised |
| `PosixOutcomes.SettleDue` | src/deepseek_mcp/file_io.py:189-220 | a committed write returns normally if and only if `fsync` and close succeed, raises if and only if a report does, and warns otherwise |
| `PosixOutcomes.WriteDue` | src/deepseek_mcp/file_io.py:223-267 | every result of a write has its reason: the first step that fails or is interrupted, a signal after them, or the outcome of the commit |
| `PosixOutcomes.WriteUndisturbed` | src/deepseek_mcp/file_io.py:223-267 | alone, a write replaces exactly what it expects, field by field, or creates, with its intent on record and nothing left behind, and otherwise changes nothing |
| `CodexCommit.CommitExisting` | adapters/codex/configure.py:294-307 | the replacement by exchange, audit and recovery, equal to its specification |
| `CodexCommit.RecoverExchange` | adapters/codex/configure.py:310-317 | the rollback of a conflicting exchange with every outcome |
| `CodexCommit.PreserveRecovery` | adapters/codex/configure.py:320-327 | displaced data is moved to a fresh name, or stays where it is |
| `CodexCommit.CommitExistingKeeps` | adapters/codex/configure.py:294-327 | the replacement refines swap-or-preserve |
| `CodexCommit.CommitExistingLosesNothing` | adapters/codex/configure.py:294-327 | no version is lost at any moment of the replacement |
| `CodexCommit.CommitExistingHonest` | adapters/codex/configure.py:294-327 | success means exactly the baseline was displaced; for every failure the history of the target and where the displaced data then is |
| `CodexCommit.CommitExistingLeftIff` | adapters/codex/configure.py:294-319 | over the failures, the rivals and what the target shows: the replacement raises and leaves the transaction published if and only if the exchange took effect and the audit, the cleanup or the rollback then fails in a stated way |
| `CodexCommit.AuditRaisedExample` | adapters/codex/configure.py:303 | a run that leaves the transaction: the displaced baseline cannot be read |
| `CodexCommit.CleanupRaisedExample` | adapters/codex/configure.py:304-306 | a run that leaves it: the displaced baseline cannot be removed |
| `CodexCommit.RecoverRaisedExample` | adapters/codex/configure.py:313 | a run that leaves it over a newer file: the target cannot be read |
| `CodexCommit.RollbackRaisedExample` | adapters/codex/configure.py:315 | a run that leaves it over a newer file: the exchange back fails |
| `CodexCommit.SupersededExample` | adapters/codex/configure.py:313-314 | a run in which a third file is written over it before the rollback, and the displaced one is kept |
| `CodexCommit.CommitExistingUndisturbed` | adapters/codex/configure.py:294-317 | alone, the replacement swaps over the baseline and restores over anything else |
| `CodexCommit.CommitNew` | adapters/codex/configure.py:279-291 | creation by link and unlink with its outcomes |
| `CodexCommit.CommitNewKeeps` | adapters/codex/configure.py:279-291 | creation refines swap-or-preserve |
| `CodexCommit.CommitNewHonest` | adapters/codex/configure.py:279-291 | creation publishes if and only if it says so, and only over an absent target |
| `CodexCommit.Install` | adapters/codex/configure.py:241-278 | replacement or creation by what the baseline was, then the directory sync, which raises when it fails |
| `CodexCommit.InstallKeeps` | adapters/codex/configure.py:241-278 | the whole operation refines swap-or-preserve |
| `CodexCommit.InstallLeftIff` | adapters/codex/configure.py:221-278 | over the failures, the rivals and what the target shows: the operation raises and leaves the transaction published if and only if the replacement does, or the private name of a creation cannot be unlinked, or the commit succeeds and the sync fails |
| `CodexCommit.UnsyncedExample` | adapters/codex/configure.py:221-227 | a run that raises and leaves the transaction: nothing fails but the directory sync |
| `CodexOutcomes.ReplaceDue` | adapters/codex/configure.py:294-327 | every outcome of a replacement has its reason, with the name under which newer content is kept, and no private file is left after a success or a clean conflict |
| `CodexOutcomes.CreateDue` | adapters/codex/configure.py:279-291 | every outcome of a creation has its reason |
| `CodexOutcomes.InstalledIff` | adapters/codex/configure.py:241-278 | the whole operation succeeds if and only if the replacement or creation and the sync do |
| `CodexCommit.Delete` | adapters/codex/configure.py:329-353 | deletion through quarantine with its directory sync, equal to its specification |
| `CodexCommit.DeleteKeeps` | adapters/codex/configure.py:329-364 | deletion destroys only the expected version |
| `CodexCommit.DeleteHonest` | adapters/codex/configure.py:329-364 | success means the expected version was taken; otherwise what was taken is back, or under the name that is reported |
| `CodexOutcomes.DeleteDue` | adapters/codex/configure.py:329-364 | a deletion succeeds if and only if the target can be moved away, is the expected regular file and can be unlinked and synced; every other outcome has its reason |
| `CodexOutcomes.DeleteUndisturbed` | adapters/codex/configure.py:329-364 | alone, a deletion removes exactly the expected regular file and leaves anything else where it is |
| `WindowsCommit.ReplaceWithBackup` | src/deepseek_mcp/windows_workspace_write.py:87-110 | the native replacement with partial failure, rollback direction and parent audit |
| `WindowsCommit.DiscardIfVersion` | src/deepseek_mcp/windows_workspace_write.py:113-136 | removal of one exact version, with the reader's refusals told apart and a close that fails after the deletion |
| `WindowsCommit.Restore` | src/deepseek_mcp/windows_atomic_commit.py:50-81 | the rollback and its outcomes |
| `WindowsCommit.Commit` | src/deepseek_mcp/windows_atomic_commit.py:84-116 | the whole commit, equal to its specification |
| `WindowsCommit.CommitKeeps` | src/deepseek_mcp/windows_workspace_write.py:45-110 | with partial replacement in either direction the commit refines swap-or-preserve |
| `WindowsCommit.CommitLosesNothing` | src/deepseek_mcp/windows_atomic_commit.py:50-116 | no version is lost at any moment of the commit |
| `WindowsCommit.CommitHonest` | src/deepseek_mcp/windows_atomic_commit.py:50-116 | the target's history for each outcome; while the replacement stands the displaced version is saved, unless it was exactly the baseline and its deletion took effect and raised |
| `WindowsCommit.CommitLeftIff` | src/deepseek_mcp/windows_atomic_commit.py:50-116 | over the failures, the rivals and what the target shows: the commit raises an ordinary exception with the replacement at the target if and only if it took effect in full and the audit is refused or the rollback cannot begin |
| `WindowsCommit.WarnedNameExact` | src/deepseek_mcp/windows_atomic_commit.py:66-116 | the warning, or the exception for an unresolved parent path, that says the original is retained is wrong if and only if the baseline was deleted and only the close after that failed |
| `WindowsCommit.CommitUndisturbed` | src/deepseek_mcp/windows_atomic_commit.py:84-116 | alone, the commit is the sequential compare-and-swap |
| `WindowsCommit.DisplacedRejectedExample` | src/deepseek_mcp/windows_workspace_write.py:113-136 | a run that fails and leaves the replacement over newer content: the reader refuses it |
| `WindowsCommit.RollbackUnresolvedExample` | src/deepseek_mcp/windows_workspace_write.py:93 | a run that fails and leaves the replacement over newer content: the parent path cannot be resolved |
| `WindowsCommit.MissingOriginalExample` | src/deepseek_mcp/windows_workspace_write.py:133-136 | a run whose warning names an original that is gone |
| `WindowsCommit.TemporaryIsOurs` | src/deepseek_mcp/windows_workspace_write.py:162-196 | at every moment of a commit the temporary name holds the replacement or nothing, never foreign data |
| `WindowsOutcomes.ReplaceDue` | src/deepseek_mcp/windows_workspace_write.py:87-110 | every end of a native replacement has its reason, and one that took effect has the displaced file under the backup name |
| `WindowsOutcomes.PartialUndone` | src/deepseek_mcp/windows_workspace_write.py:45-64 | a replacement that stops half-way is undone, or as a rollback completed, when nothing else goes wrong |
| `WindowsOutcomes.RemovalDue` | src/deepseek_mcp/windows_workspace_write.py:113-136 | a file is removed if and only if it can be read, is regular and is the expected version, and every other end has its reason |
| `WindowsOutcomes.AuditDue` | src/deepseek_mcp/windows_atomic_commit.py:50-116 | every outcome of the audit and of the rollback after it has its reason |
| `WindowsOutcomes.CommitDue` | src/deepseek_mcp/windows_atomic_commit.py:84-116 | every outcome of a commit has its reason, over the failures, the rivals, the names drawn and what the target shows |
| `WindowsOutcomes.CommitElsewhere` | src/deepseek_mcp/windows_atomic_commit.py:84-106 | alone, a creation publishes over an absent target only, and a replacement of a missing target does nothing |
| `WindowsCommit.RecoverFailedReplace` | adapters/codex/windows_file_io.py:372-379 | a half-done replacement is undone when the target is missing; a read that raises is told apart |
| `WindowsCommit.SwapNames` | adapters/codex/windows_file_io.py:339-344 | the replacement with the path check before it, done, refused or stopped half-way |
| `WindowsCommit.PreserveName` | adapters/codex/windows_file_io.py:381-388 | the rename to a recovery name and the name it answers |
| `WindowsCommit.PreserveNameExact` | adapters/codex/windows_file_io.py:381-388 | the answered name holds the data if and only if no close failed after the rename |
| `WindowsCommit.PreserveNameExample` | adapters/codex/windows_file_io.py:381-388 | a run whose answer names a vacant file |
| `WindowsCommit.SwapBack` | adapters/codex/atomic_commit.py:168-177 | the second replacement, which takes the transaction back, with each failure |
| `WindowsCommit.ReplaceCas` | adapters/codex/atomic_commit.py:147-177 | the compare-and-swap over callbacks, equal to its specification |
| `WindowsCommit.CasKeeps` | adapters/codex/atomic_commit.py:147-177 | the compare-and-swap with its second race refines swap-or-preserve |
| `WindowsCommit.CasLosesNothing` | adapters/codex/atomic_commit.py:147-177 | no version is lost at any moment of it |
| `WindowsCommit.CasHonest` | adapters/codex/atomic_commit.py:147-177 | success means the expected version was displaced and the transaction stands; for every other verdict whether it stands, was taken back or was put aside half-way, and that the reported name holds what was displaced unless a handle did not close or the name drawn for the second replacement was taken |
| `WindowsCommit.CasLeftIff` | adapters/codex/atomic_commit.py:147-177 | over the failures, the rivals and what the target shows: the compare-and-swap ends without success and leaves the transaction published if and only if the first replacement took effect and then the audit raises, or something else was displaced and the second replacement is not made or changes nothing |
| `WindowsCommit.NotTakenBackExample` | adapters/codex/atomic_commit.py:168-173 | a run that reports a conflict and leaves the transaction over newer content: the second replacement fails |
| `WindowsOutcomes.SwapDue` | adapters/codex/windows_file_io.py:339-344 | every end of one replacement has its reason, with the whole directory after it |
| `WindowsOutcomes.RecoverDue` | adapters/codex/windows_file_io.py:372-379 | the recovery returns if and only if its reads do, and moves the saved file back to a vacant target |
| `WindowsOutcomes.CasDue` | adapters/codex/atomic_commit.py:147-177 | every verdict of the compare-and-swap has its reason, over the failures, the rivals, the names drawn and what the target shows |
| `WindowsOutcomes.CasUndisturbed` | adapters/codex/atomic_commit.py:147-177 | alone, it swaps over exactly the expected file, takes itself back over any other and leaves no private file |
| `WindowsOutcomes.HalfwayUndone` | adapters/codex/atomic_commit.py:157-161 | a first replacement that stops half-way is undone when nothing else goes wrong |
| `JsonText.UnescapeEscape` | src/deepseek_mcp/transaction_journal.py:78-85 | reading an escaped string gives the string with surrogate pairs joined |
| `JsonText.StringRoundTrip` | src/deepseek_mcp/tool_child.py:196-202 | an escaped string reads back as itself if and only if it holds no adjacent surrogate pair |
| `JsonText.SplitPairExample` | src/deepseek_mcp/agent_loop.py:391-397 | a decoded argument with an adjacent pair of surrogates, which does not read back as itself |
| `JsonText.ParseEncode` | src/deepseek_mcp/transaction_journal.py:78-96 | a clean object reads back as itself, whatever follows it is left over |
| `JsonText.PrefixIsNotObject` | src/deepseek_mcp/tool_process.py:199-209 | no proper prefix of an encoded object is an object |
| `JsonText.EncodePrintable` | src/deepseek_mcp/tool_child.py:173-202 | encoded objects contain printable ASCII only, hence no raw line break |
| `JsonText.TrailingRefused` | src/deepseek_mcp/transaction_journal.py:87-96 | an object followed by anything is not an object |
| `JsonText.NoRawControls` | src/deepseek_mcp/tool_process.py:199-227 | a string that is read holds no raw control character |
| `JsonText.ShortEscapes` | src/deepseek_mcp/transaction_journal.py:78-85 | the characters with an escape of two characters are written with it, printable ASCII as itself |
| `JsonText.DigitsRead` | src/deepseek_mcp/tool_process.py:199-209 | hexadecimal digits are read in either case |
| `Journal.RecordRoundTrip` | src/deepseek_mcp/transaction_journal.py:66-96 | a valid record that fits 64 KiB is decoded and validated to exactly itself |
| `Journal.DecodeRecord` | src/deepseek_mcp/transaction_journal.py:87-96 | whatever is decoded is a valid record |
| `Journal.ValidMeans` | src/deepseek_mcp/transaction_journal.py:50-77 | what is required of a record, field by field: hexadecimal ids and digests of their lengths, a relative path without an upward part, warnings of at most 4096 bytes |
| `Journal.RelativeMeans` | src/deepseek_mcp/transaction_journal.py:60-65 | a path is accepted if and only if it is not absolute and no part of it between slashes is two dots |
| `Journal.DecodeIsStrict` | src/deepseek_mcp/transaction_journal.py:36-42 | the data of a decoded record is one object with seven members under different keys, those of the record |
| `Journal.Store.Names` | src/deepseek_mcp/transaction_journal.py:217-225 | a returned list names each record once and nothing else, no stale temporary is left, and no record changed at any moment; it is refused, unless a call failed, only for more than 128 records |
| `Journal.Store.Write` | src/deepseek_mcp/transaction_journal.py:243-285 | at every moment the one record is old or new as a whole and all others unchanged; published only over the given baseline, and always so unless a call failed |
| `Journal.Store.Delete` | src/deepseek_mcp/transaction_journal.py:286-291 | at every moment the record is there as it was or gone; unless a call failed it succeeds if and only if the record is the given one |
| `Journal.TableOldOrNew` | src/deepseek_mcp/transaction_journal.py:258-275 | contents that are old or new as files are an old or a new table of decoded records |
| `Journal.RecordIntent` | src/deepseek_mcp/transaction_journal.py:414-435 | at every moment the journal is the old one or the old one with exactly this record; unless a call failed it is refused if and only if it is too long, the journal is full or the id has another intent |
| `Journal.AppendWarning` | src/deepseek_mcp/transaction_journal.py:436-449 | at every moment the journal is the old one or has this one warning appended to this one record, all else kept; unless a call failed it is appended if and only if the warning is valid, the record is there, is of this workspace and still fits |
| `Journal.AcknowledgeOne` | src/deepseek_mcp/transaction_journal.py:486-494 | one named record of this workspace goes as a whole, or nothing does; unless a call failed it goes whenever it is there |
| `Journal.Acknowledge` | src/deepseek_mcp/transaction_journal.py:470-495 | at every moment only named records of the same workspace are gone; a normal return means exactly all of them are, and it is the answer, unless a call failed, to at most 128 ids whose records decode |
| `Journal.PendingRecords` | src/deepseek_mcp/transaction_journal.py:458-469 | a returned list is exactly the records of this workspace and every record decoded; unless a call failed it is returned whenever that is so |
| `ToolEvents.Pipe.WriteBytes` | src/deepseek_mcp/tool_child.py:205-211 | pieces of any size add up to exactly the encoded bytes |
| `ToolEvents.Pipe.WriteEvent` | src/deepseek_mcp/tool_child.py:173-202 | an event is appended as one whole line |
| `ToolEvents.Pipe.WriteReply` | src/deepseek_mcp/tool_child.py:214-220 | a reply is appended, or an error reply in place of one that is too long |
| `ToolEvents.MutationDigest` | src/deepseek_mcp/tool_process.py:199-209 | the digest is that of the first ready event in the stream |
| `ToolEvents.MutationWarnings` | src/deepseek_mcp/tool_process.py:212-227 | the warnings are the distinct details of the warning events, in order |
| `ToolEvents.EventRoundTrip` | src/deepseek_mcp/tool_child.py:173-202 | an event line is read back as that event |
| `ToolEvents.TruncatedEvents` | src/deepseek_mcp/tool_process.py:199-227 | cut anywhere, a stream shows exactly the events whose lines were written whole |
| `ToolEvents.TruncatedReply` | src/deepseek_mcp/tool_process.py:177-196 | a reply is decoded from a cut stream only if the stream is whole |
| `ToolOutcomes.FirstDigestDue` | src/deepseek_mcp/tool_process.py:199-209 | the digest is that of the first ready event |
| `ToolOutcomes.DetailsInOrder` | src/deepseek_mcp/tool_process.py:212-227 | warnings are listed in the order in which each was first written |
| `ToolOutcomes.GlueIs` | src/deepseek_mcp/tool_process.py:227 | warnings are joined by a semicolon and a space |
| `ToolOutcomes.ReadyIsHex` | src/deepseek_mcp/tool_process.py:199-209 | a digest that is taken from a line has 64 hexadecimal digits |
| `ToolOutcomes.WholeDue` | src/deepseek_mcp/tool_process.py:199-227 | among the bytes that arrived are as many whole events as fit |
| `ToolOutcomes.CrLfIsOne` | src/deepseek_mcp/tool_process.py:199-227 | a carriage return and a line feed are one line break |
| `ToolOutcomes.SentDue` | src/deepseek_mcp/tool_child.py:214-220 | a reply is sent as it is unless it exceeds the limit, and what is sent never does |
| `ToolCall.ExecuteInSubprocess` | src/deepseek_mcp/tool_process.py:330-437 | the verdict of a call and at most one report, equal to its specification |
| `ToolCall.ReceivedIsSent` | src/deepseek_mcp/tool_process.py:177-196 | a reply counts if and only if the whole stream arrived, the call was not interrupted and its budget is within bounds |
| `ToolOutcomes.ReportDue` | src/deepseek_mcp/tool_process.py:212-243 | a report is made if and only if a ready event of a mutation tool arrived; it says committed if and only if the file reads back with that digest, interrupted or not, and carries exactly the warnings that arrived |
| `ToolOutcomes.FateDue` | src/deepseek_mcp/tool_process.py:330-437 | how the call ends, in every case, by the report, the reply that arrived and the cleanup |
| `ToolCall.CleanSuccessIff` | src/deepseek_mcp/tool_process.py:401-437 | a mutation tool returns a clean success if and only if the child's stream came whole and its reply is that success, the file reads back with the digest of the ready event it wrote, it wrote no warning, of whatever text, and cleanup worked |
| `ToolCall.CleanSuccessIsWritten` | src/deepseek_mcp/tool_process.py:401-437 | behind a clean success is a tool run that ended without warning, swapped the new file over exactly what it expected, has its intent on record, and reads back with that digest |
| `ToolCall.ReportedIsJournaled` | src/deepseek_mcp/tool_process.py:330-369 | what a parent reports was recorded by the child before |
| `ToolCall.EffectIsReported` | src/deepseek_mcp/tool_process.py:161-175 | a child stopped anywhere after touching the target, up to the end of its tool run with every warning reported twice, is reported by its parent if and only if its output fits the limit |
| `ToolCall.WarnedIsReviewed` | src/deepseek_mcp/tool_process.py:401-437 | a tool run that ended with a warning is put to review with that warning once its output has arrived |
| `ToolCall.WarnedExample` | src/deepseek_mcp/tools.py:40-42 | a run that ends with a warning and its whole output: ready line, the warning twice, each time with a text of its own, and the reply |
| `ToolCall.UnreportedExample` | src/deepseek_mcp/tools.py:85-106 | a write without any failure whose reply, which repeats a long path, fits the limit alone but not with its ready line, and of which the parent reports nothing |
| `Recovery.NextInv` | src/deepseek_mcp/execution_lock.py:42-103 | every step of every process keeps the invariant: descriptors match live processes and belong to one session, recorded is journaled or acknowledged, the journal belongs to the running session |
| `Recovery.Gate` | src/deepseek_mcp/job_manager.py:451-460 | when a delegation passes its pending check no tool child is alive, no other session is open and everything ever recorded or made visible was acknowledged |
| `Recovery.AcknowledgedIsDead` | src/deepseek_mcp/transaction_recovery.py:57-70 | while anything is being acknowledged no tool child is alive |
| `Recovery.AcknowledgedGoes` | src/deepseek_mcp/transaction_journal.py:486-494 | an acknowledgement takes exactly its record out of the journal and changes nothing else |
| `Recovery.RecoveryReopens` | src/deepseek_mcp/transaction_recovery.py:34-70 | from every reachable state the processes can end, one acknowledgement of the records in the journal empties it, and the next delegation passes its check, with the workspace as it was |
| `Recovery.LeaseComesFree` | src/deepseek_mcp/execution_lock.py:42-103 | from every state the processes can all end, and the lease is then free |
| `Recovery.CallSucceeds` | src/deepseek_mcp/tool_child.py:162-170 | a delegation with calls left can always make one, which journals its intent, becomes visible, is reported and changes nothing else |
| `Recovery.AbandonedLives` | src/deepseek_mcp/tool_process.py:330-352 | a parent that gives up lets go of the lease, and its child goes on and holds it |
| `Recovery.RefusedNeverOpens` | src/deepseek_mcp/execution_lock.py:60-103 | a session that found the workspace busy never opens |
| `Recovery.CapacityHolds` | src/deepseek_mcp/transaction_journal.py:426-434 | no step takes the journal beyond 128 records, whatever state it starts from |
| `Recovery.AcknowledgedIsFinal` | src/deepseek_mcp/transaction_recovery.py:57-70 | after its acknowledgement a transaction changes neither workspace nor journal nor reports, in any continuation |
| `Recovery.OrphanHoldsLease` | src/deepseek_mcp/tool_process.py:100-118 | while a child lives, even without its parent, nobody opens a delegation or an acknowledgement |
| `Recovery.AtMostOneSession` | src/deepseek_mcp/execution_lock.py:60-103 | over all servers at most one session is open |
| `Recovery.EffectIsJournaled` | src/deepseek_mcp/tool_child.py:162-170 | whatever became visible is in the journal with its exact intent, and whatever was reported is in the journal, until its id is acknowledged |
| `Recovery.LeavesOnlyByName` | src/deepseek_mcp/transaction_journal.py:481-495 | a record leaves the journal only by an acknowledgement that names it (`Recovery.AcknowledgedGoes` says that it then leaves) |
| `Recovery.NamedBeforeNextDelegation` | src/deepseek_mcp/transaction_recovery.py:34-47 | between a journaled transaction and any later delegation lies an acknowledgement of that very transaction |
| `Recovery.RoomToRecord` | src/deepseek_mcp/transaction_journal.py:426-434 | a child about to record always finds room: the capacity of 128 is never exceeded |
| `Recovery.WarningFindsRecord` | src/deepseek_mcp/transaction_journal.py:436-449 | a child that warns after its commit still finds its record |
| `Jobs.EnqueuedKept` | src/deepseek_mcp/job_manager.py:100-115 | queueing keeps count and byte total equal to the contents and within their limits |
| `Jobs.DrainedKept` | src/deepseek_mcp/job_manager.py:117-138 | draining, finalizing and closing keep them so, and a closed mailbox is empty |
| `Jobs.FinishedOk` | src/deepseek_mcp/job_manager.py:401-433 | a finished job is terminal, closed, has a result if and only if it completed, and is cancelled if and only if cancellation was set |
| `Jobs.ApplyOk` | src/deepseek_mcp/job_manager.py:221-498 | every operation keeps the manager invariant |
| `Jobs.OneExecution` | src/deepseek_mcp/job_manager.py:221-283 | in every run at most one execution is unfinished, and exactly it holds the lease |
| `Jobs.RefusedStartChangesNothing` | src/deepseek_mcp/job_manager.py:247-283 | a start refused for any reason changes no job, no slot and no lease |
| `Jobs.TerminalIsFinal` | src/deepseek_mcp/job_manager.py:401-433 | status, result, error and finishing time of a terminal job never change |
| `Jobs.AcceptedCancelWins` | src/deepseek_mcp/job_manager.py:305-318 | a job whose cancellation was answered as accepted can only end cancelled and without a result, in any continuation |
| `Jobs.CancelKeepsReport` | src/deepseek_mcp/job_manager.py:175-185 | a cancelled job still reports the mutations of its run |
| `Jobs.ClaimIsExclusive` | src/deepseek_mcp/job_manager.py:335-370 | a held usage claim is granted again only after its holder gave it back unrecorded |
| `Jobs.RecordedOnce` | src/deepseek_mcp/job_manager.py:341-370 | a recorded usage is never handed out again |
| `Jobs.NothingIsDropped` | src/deepseek_mcp/job_manager.py:100-138 | until a job ends or is cancelled, accepted messages are exactly those delivered, in order, followed by those that wait |
| `Jobs.PruneRemovesOldest` | src/deepseek_mcp/job_manager.py:488-498 | pruning removes only terminal jobs without a held claim, each older than every such job it keeps, and changes no other |
| `Jobs.PruneLeaves` | src/deepseek_mcp/job_manager.py:488-498 | it leaves 19 of them if there were 20 or more, otherwise all |
| `Jobs.GoneForGood` | src/deepseek_mcp/job_manager.py:482-498 | a pruned job never comes back |
| `JobOutcomes.StartDue` | src/deepseek_mcp/job_manager.py:247-283 | a start succeeds if and only if it is valid, nothing is under way, the workspace grants its lease and the thread starts; the new job is then stored as given; each refusal has its answer |
| `JobOutcomes.RunSyncDue` | src/deepseek_mcp/job_manager.py:221-245 | a synchronous run likewise, and its end leaves the slot and the lease free |
| `JobOutcomes.FinishDue` | src/deepseek_mcp/job_manager.py:401-433 | an uncancelled run stores its status, its result if and only if it completed, its error and the time, and frees slot and lease |
| `JobOutcomes.ResultIsKept` | src/deepseek_mcp/job_manager.py:401-433 | what such a run stored is what the job shows in every continuation |
| `JobOutcomes.CancelledFinishDue` | src/deepseek_mcp/job_manager.py:175-185 | a cancelled run keeps no result; its error lists its mutations, is its own or tells of the cancellation, each exactly when |
| `JobOutcomes.CancelDue` | src/deepseek_mcp/job_manager.py:305-318 | a cancellation is accepted if and only if the job is stored, not finished and not yet cancelled |
| `JobOutcomes.SendDue` | src/deepseek_mcp/job_manager.py:100-115 | a message is queued, after those that wait, if and only if it is text within 64 KiB and the open mailbox has room in number and bytes |
| `JobOutcomes.SendElsewhere` | src/deepseek_mcp/job_manager.py:295-303 | a message to a finished or unknown job is refused as such and changes nothing |
| `JobOutcomes.DrainDue` | src/deepseek_mcp/job_manager.py:117-132 | a drain hands out everything that waits, and one that finds nothing and finalizes closes the mailbox |
| `JobOutcomes.ClosedForGood` | src/deepseek_mcp/job_manager.py:117-138 | once closed, a mailbox accepts no message in any continuation |
| `JobOutcomes.ClaimDue` | src/deepseek_mcp/job_manager.py:335-370 | the usage of a completed job is handed out, with exactly its task length and result, if and only if nobody holds or recorded it |
| `JobOutcomes.FinishUsageDue` | src/deepseek_mcp/job_manager.py:341-349 | a claim given back is recorded, or can be claimed like before |
| `JobOutcomes.PruneDue` | src/deepseek_mcp/job_manager.py:488-498 | of 20 or more ended jobs without a held claim exactly the 19 that ended last stay, and every other job is untouched |
| `JobOutcomes.EveryJob` | src/deepseek_mcp/job_manager.py:50-135 | what holds of every job that any run of the manager shows: ending, result, cancellation, mailbox limits and usage flags agree |
| `Jobs.JobRecord.QueueMessage` | src/deepseek_mcp/job_manager.py:100-115 | admission of a message and the mailbox after it |
| `Jobs.JobRecord.DrainMessages` | src/deepseek_mcp/job_manager.py:117-132 | the batch handed out is the whole queue; an empty one closes on finalizing |
| `Jobs.JobRecord.Finish` | src/deepseek_mcp/job_manager.py:413-433 | the terminal record of a run |
| `Jobs.JobManager.RunSync` | src/deepseek_mcp/job_manager.py:221-245 | the start of a synchronous run as the operation of that name |
| `Jobs.JobManager.Start` | src/deepseek_mcp/job_manager.py:247-283 | the start of a background job, with every rejection, as the operation of that name |
| `Jobs.JobManager.Prune` | src/deepseek_mcp/job_manager.py:488-498 | the manager after pruning |
| `Jobs.JobManager.FinishRun` | src/deepseek_mcp/job_manager.py:401-433 | finishing a run as the operation of that name |
| `Jobs.JobManager.SendMessage` | src/deepseek_mcp/job_manager.py:295-303 | sending a message as the operation of that name |
| `Jobs.JobManager.Cancel` | src/deepseek_mcp/job_manager.py:305-318 | cancelling as the operation of that name |
| `Jobs.JobManager.ClaimUsage` | src/deepseek_mcp/job_manager.py:335-370 | claiming usage as the operation of that name |
| `Jobs.JobManager.FinishUsage` | src/deepseek_mcp/job_manager.py:341-349 | acknowledging a claim as the operation of that name |
| `AgentLoop.EveryCallAnswered` | src/deepseek_mcp/agent_loop.py:334-376 | in a well-formed history every call is answered once, in order, right after its message; a skipped call is followed only by skipped calls of its batch and then by steering |
| `AgentLoop.EveryRequestWellFormed` | src/deepseek_mcp/agent_loop.py:204-230 | every request of every run, however it ends, carries such a history |
| `AgentLoop.NoSteeringLost` | src/deepseek_mcp/agent_loop.py:277-301 | the request that a completed run answers contains every accepted message, stripped and in order, and none can be accepted afterwards |
| `AgentLoop.RunWithinBudgets` | src/deepseek_mcp/agent_loop.py:233-258 | however a run ends: request bytes of all turns, calls, journaled mutations and bytes offered to writes stay within their bounds, reported tokens within metered ones, and the record list never overflows |
| `AgentLoop.RunCallsKeeps` | src/deepseek_mcp/agent_loop.py:341-376 | however far a batch gets, the history is complete again or the run stops |
| `AgentLoop.TurnKeeps` | src/deepseek_mcp/agent_loop.py:178-201 | a turn keeps history, budgets and mail in balance |
| `AgentLoop.FinalizeKeeps` | src/deepseek_mcp/agent_loop.py:277-301 | a final answer is given only with an empty, closed mailbox |
| `AgentOutcomes.EveryHaltHasItsReason` | src/deepseek_mcp/agent_loop.py:119-132 | every run that ends without an answer has its stated reason in its last state: time, tokens, history, cancellation, provider, empty answer, batch size, tool, records or turns |
| `AgentOutcomes.AnswerIsLastReply` | src/deepseek_mcp/agent_loop.py:277-301 | the answer of a run is the text of the reply to its last request, and not blank |
| `AgentOutcomes.BooksAreTrue` | src/deepseek_mcp/agent_loop.py:204-230 | however a run ends, its budget is exactly the cost of its requests, its tokens and bytes are those reported and sent, and its records are those of its tool calls in order |
| `AgentOutcomes.TurnDue` | src/deepseek_mcp/agent_loop.py:178-201 | a turn issues one request and halts for a reason, answers with the text of the reply, or extends the history by exactly what happened |
| `AgentOutcomes.RunCallsDue` | src/deepseek_mcp/agent_loop.py:341-376 | a batch runs its calls in order until steering arrives and then skips all the others |
| `AgentOutcomes.PrepareDue` | src/deepseek_mcp/agent_loop.py:233-275 | a request is made only when it fits what is left of the tokens, growth included, and of the history |
| `AgentOutcomes.ExecuteDue` | src/deepseek_mcp/agent_loop.py:379-420 | a tool call goes through if and only if it returns within what the run may still write and its record finds room |
| `AgentOutcomes.MessageArrives` | src/deepseek_mcp/agent_loop.py:447-455 | a message that is sent while the agent works waits in the mailbox if and only if it is text within its limits and the box is open and has room |
| `AgentOutcomes.CancelStops` | src/deepseek_mcp/agent_loop.py:178-201 | once cancelled, a turn issues no request and a batch runs no tool |
| `AgentOutcomes.LateStops` | src/deepseek_mcp/agent_loop.py:178-201 | past the deadline, a turn issues no request and a batch runs no tool |
| `Unicode.StripMeans` | src/deepseek_mcp/agent_loop.py:447-455 | what is delivered of a message is its text without the white space at its two ends |
| `AgentRun.Agent.Poll` | src/deepseek_mcp/agent_loop.py:447-455 | the stripped batch and the mailbox after it |
| `AgentRun.Agent.Meter` | src/deepseek_mcp/agent_loop.py:204-223 | the counters after a response |
| `AgentRun.Agent.SteerBeforeTools` | src/deepseek_mcp/agent_loop.py:350-353 | one skipped response per call, then the steering |
| `AgentRun.Agent.Execute` | src/deepseek_mcp/agent_loop.py:356-369 | the counters and records after one tool call |
| `AgentRun.Agent.RunCalls` | src/deepseek_mcp/agent_loop.py:341-347 | the loop over a batch, equal to its specification |
| `AgentRun.Agent.RunTurn` | src/deepseek_mcp/agent_loop.py:178-201 | one turn, equal to its specification |
| `AgentRun.Agent.RunAgent` | src/deepseek_mcp/agent_loop.py:119-124 | the loop over turns, equal to its specification |
| `Glob.CloseStates` | src/deepseek_mcp/workspace_walk.py:73-78 | one ascending pass gives the least superset in which every `**` may be empty |
| `Glob.AdvanceStates` | src/deepseek_mcp/workspace_walk.py:55-65 | the states after one segment, in whatever order the old ones are visited |
| `Glob.StatesAccept` | src/deepseek_mcp/workspace_walk.py:52-78 | after a prefix the state set accepts exactly the ways to complete it to a match |
| `Glob.AutomatonDecides` | src/deepseek_mcp/workspace_walk.py:67-68 | the automaton agrees with the recursive relation on every path |
| `Glob.MatchesIff` | src/deepseek_mcp/workspace_walk.py:52-78 | what the relation means: a path matches if and only if it can be cut into one piece for each part, `**` taking any segments without a leading dot that are no generated directories, any other part one segment that fits it |
| `Glob.EmptyIsDead` | src/deepseek_mcp/workspace_walk.py:174-176 | with an empty state set no extension of the path matches |
| `Glob.NoDescentIsDead` | src/deepseek_mcp/workspace_walk.py:70-71 | when the set cannot descend no proper extension matches |
| `Walk.ListingHas` | src/deepseek_mcp/workspace_walk.py:165-183 | the recursive listing holds exactly the paths that are present without links, unguarded and matching, generated directories being those of the three names |
| `Walk.ListingDistinct` | src/deepseek_mcp/workspace_walk.py:140-163 | the listing holds no path twice |
| `Walk.EntryVerdict` | src/deepseek_mcp/workspace_walk.py:165-183 | what the states after an entry decide about it and about everything below it |
| `Walk.HeightIsReached` | src/deepseek_mcp/workspace_walk.py:204-225 | a depth that truncates a walk is that of a chain of nested directories which is there |
| `Walk.WorkspaceWalk.AdvancePruned` | src/deepseek_mcp/walk_support.py:33-42 | the states after an entry; a directory is counted, and among the first five listed, exactly when pruning changed them |
| `Walk.WorkspaceWalk.InspectEntry` | src/deepseek_mcp/workspace_walk.py:165-183 | an entry and its frame stand for its part of the listing, unless a limit cut it and the flag says so |
| `Walk.WorkspaceWalk.ChildFrame` | src/deepseek_mcp/workspace_walk.py:204-225 | a directory is entered, or nothing below it is listed, or a limit is reported |
| `Walk.WorkspaceWalk.Walk` | src/deepseek_mcp/workspace_walk.py:140-257 | an untruncated walk yields the listing exactly and in order; any walk yields part of it without repeats; limits hold; no entry is read once the deadline was seen to pass; truncation is reported only for a reason |
| `EditSize.ReplaceIsJoin` | src/deepseek_mcp/tools.py:150-151 | the text is its pieces joined by the old string, the result the same pieces joined by the new one |
| `EditSize.PiecesAreFree` | src/deepseek_mcp/tools.py:136-144 | no piece contains the old string |
| `EditSize.PiecesAreLeftmost` | src/deepseek_mcp/tools.py:136-151 | occurrences are taken from the left: after each piece comes the first one there is |
| `EditSize.CountedIff` | src/deepseek_mcp/tools.py:136-139 | an old string is counted if and only if it occurs |
| `EditSize.SizeIsReplaced` | src/deepseek_mcp/tools.py:44-47 | the size is that of the encoded text with a question mark for each surrogate |
| `EditSize.SaturatedSize` | src/deepseek_mcp/tools.py:44-47 | the computed size is on the same side of the limit as the true one and equal to it below |
| `Unicode.WidthIsExact` | src/deepseek_mcp/file_io.py:280-287 | the width of a code point is the number of bytes in UTF-8 that give it back |
| `Unicode.Utf8IsLength` | src/deepseek_mcp/file_io.py:280-287 | the size of a text is the length of its encoding |
| `EditSize.ReplacedSize` | src/deepseek_mcp/tools.py:144-147 | the size of the result is the size of the text plus the difference once per replacement |
| `EditSize.EstimateExact` | src/deepseek_mcp/tools.py:44-47 | the saturated estimate is on the same side of the limit as the true size |
| `EditSize.PreCheckExact` | src/deepseek_mcp/tools.py:133-151 | an edit is accepted if and only if the old string occurs, is unambiguous, and the replaced text fits 5,000,000 bytes, and it yields that text |
| `EditSize.AcceptedIsWritable` | src/deepseek_mcp/file_io.py:280-287 | an accepted text is encoded unless the new string holds a surrogate, in exactly the reserved number of bytes |
| `EditSize.MutationBudget.Reserve` | src/deepseek_mcp/resource_budget.py:22-32 | a reservation is granted if and only if it fits, and adds exactly its size |
| `EditSize.MutationBudget.ExecuteEdit` | src/deepseek_mcp/tools.py:153-180 | one edit makes at most one reservation, of exactly the bytes it may write, kept even when the write fails; it is written if and only if it is accepted, affordable and encodable and the write works |

## Left out

- Rivals that write through a descriptor they already hold: a rival replaces or removes the target as a whole.
- Change times in the validation of the target, and directory durability beyond published or not: a directory sync that fails is a warning of a POSIX write and an exception of Codex, and its file stays where it is.
- Asynchronous exceptions other than the termination signal of a tool child. That signal may arrive during any primitive of a POSIX write; one that arrives while the cleanup already runs only stops it, which leaves one of the moments that `PosixCommit.WriteLosesNothing` speaks of.
- A termination signal inside the writing of an event line longer than a pipe takes at once: such a line would be torn and the error reply glued to it.
- An error of the final close of the parent directory when nothing was committed.
- `WindowsCommit.CasHonest`: assumes that the first backup name drawn at random is unused, because a native replacement onto an existing backup is not modelled; what a clash of the name drawn for the second replacement does is excepted in its statement.
- `WindowsCommit.CasLeftIff`: assumes the same of the first name, and excepts the second.
- `WindowsOutcomes.CommitDue`: takes a native replacement onto a taken backup name to be refused, which is not modelled otherwise.
- `WindowsOutcomes.CasDue`: takes the same.
- `CodexCommit.Install`: starts with the filled private file; its size limit, its preparation and the first look at the target come before.
- `WindowsCommit.TemporaryIsOurs`: assumes that no name drawn at random equals the temporary name.
- `Journal.RecordIntent`: assumes that the path holds no adjacent surrogate pair; a path with a high surrogate has no file name on POSIX and is refused when it is resolved, before the record is encoded.
- `Journal.AppendWarning`: assumes the same of the path already on record.
- `ToolEvents.TruncatedReply`: assumes a result without an adjacent surrogate pair; with one, the parent would read the joined character instead.
- Codex Windows deletion by handle and the caller `write_windows` around the workspace commit.
- Windows journal store and Windows lock with its explicit unlock: `Recovery` and `Journal` model the POSIX ones.
- System calls, handles, access lists, hashing and `fnmatch`: abstract primitives with stated effects; a digest stands for its content.
- JSON beyond what the child and the journal write: white space, negative and fractional numbers, nested objects, white space in hexadecimal digests.
- The private-file checks of the journal (ownership, mode, link count) are failures that may happen at any call; the order of record names is not modelled.
- `Recovery` treats the pending check and each journal operation as one step, since each runs under the exclusive lock of the journal directory; what a step leaves when it is killed inside is the subject of `Journal`.
- Bash execution is not journaled by design and is not modelled; a tool child's own subprocesses are not either.
- The retries of one provider request re-send it without metering: `AgentLoop` counts one request per turn.
- `AgentLoop.RunWithinBudgets`: bounds what children offer to writes; that a child honours its own budget is `EditSize.MutationBudget.Reserve`.
- Provider transport, streaming, subprocess start and stop, pipes, threads and signals appear only through their effects.
- Setting the cancellation flag and closing the mailbox are one operation in `Jobs`: a drain between the two commutes with both.
- `Jobs.JobManager` takes the drawn job ids to be fresh, and a closed lease descriptor to be released.
- Task text, context, timing and snapshot fields of a job that no other operation reads.
- Races during a walk (entries that vanish or change identity), opening of matched files, and early closing by the consumer: `Walk` is over a fixed tree.
- Parsing of the raw glob pattern and of edit arguments; notebook edits.
- Server endpoints, schemas, prompts, result formatting, logging, configuration and installation.
