# Mudlet: undo, re-entrant processing, credentials and map geometry

A Dafny 4.11 model of parts of Mudlet, with proofs of what they promise. `dafny verify dfyconfig.toml` checks all of it.
Wherever the program changes state step by step, a class or a method with its loops stands for it and is proved against
a function of the old state; the theorems over whole runs are about those functions. `Collections` holds what they share.

- **Editor undo** (`Forests`, `EditorCommands`, `DeletedSubtrees`, `RenamedDeletes`, `UndoStack`, `UndoHistory`,
  `UndoPushing`, `UndoRuns`, `UndoLimits`, `Levels`, `DeletePlaces`, `DeleteCommandObject`, `EditorCommandObjects`,
  `UndoStackObject`). Undo and redo destroy and recreate items under fresh IDs. An item's first ID serves as its identity;
  a map gives the ID it has now. Main results: a deleted set of subtrees alternates between two forests for ever
  (`DeleteAlternates`), and exactly when one of them is the forest before the delete (`SeenBeforeGoesBackIff`); in every
  run the forest at an index is the one last pushed there (`RunShowsWhatWasPushed`), and every stored ID is the latest
  (`RunKeepsLatestIDs`), even when what listens to a change pushes in the middle of it.
- **Aliases and buttons** (`AliasUnits`, `DeferredDeletes`, `AliasSafety`, `AliasRuns`, `AliasRunaway`, `AliasUnitObject`,
  `AliasRootList`, `ActionUnits`). Scripts kill, install, uninstall, add and expand while lists are being walked. Main
  results: `AnyRunIsSafe`, `CommandFreesQueuedOnce`, `CleanupFaultsIff`, `RunawayIsLinear`, `ActionsAreFreedOnce`,
  `PendingGoes`.
- **Credentials** (`CredentialLookups`, `CredentialAnswers`, `CredentialLookupObject`, `CredentialFiles`,
  `CredentialFileStore`). Main results: `EveryLookupKeepsItsPromises`, `ChainComesToAnEnd`, `LastWriterWins`,
  `LastIsLostIff`.
- **GMCP sign-in** (`GmcpSignIn`, `GmcpAuthenticator`, `SignInReconciler`). Main results: `ForgetWins`, also of the
  object (`ForgetAndGoOn`), `NoReplayAfterRejection`, `LastIntentWins`.
- **Map drawing** (`RectDeclutter`, `Meshes`, `RetainedInstances`, `DashWalk`, `ExitScene`, `GridSnapping`,
  `CustomLineSession`). Main results: the grid refines the plain scan (`DeclutteredRects`), watertight meshes
  (`CylinderMesh`, `ConeMesh`, `SphereMesh`), `UploadsAreEnough`, `PiecesShowTheWhole`, `SceneDrawsPairsOnce`,
  `SnapThenRestoreIsExactIff`.
- **Fonts** (`FontManager`). Main results: `AlwaysCounted`, `LoadedPathsStayLive`.

Where a promise is false of the code, a lemma gives a run that breaks it and another says exactly when it holds:
`InnerItemLeftBehind` with `DeleteReportsAllButInner`, `FirstTwoSwap` with `SeenBeforeGoesBackIff`,
`RegrownIsFreedTwice` with `AnyRunIsSafe`, `ButtonIsFreedTwice` with `ActionsAreFreedOnce`, `OtherProfileLoses` with
`LastIsLostIff`, `SameSecondIsNotSeen` with `OlderWriteSeenIff`, `MoveLosesIff`, and `SnapThenRestoreIsExactIff`, whose
condition is weaker than that no two points snap together. The comment at `src/AliasUnit.cpp:565-570` takes a double free
through a child of a queued alias to be out of reach; `RegrownIsFreedTwice` reaches it.

## Model

| member | source | states |
|---|---|---|
| EditorCommands.FiledExactly | src/EditorDeleteItemCommand.cpp:41-62 | undo() files every entry once under the parent it was recorded with, in recording order, and files nothing else |
| DeletedSubtrees.RestoreOne | src/EditorDeleteItemCommand.cpp:62-82 | restoring a topmost entry puts its subtree in at the recorded place, up to IDs, and brings its own entry and every entry inside it to the recreated items' IDs |
| DeletedSubtrees.AllGone | src/EditorDeleteItemCommand.cpp:177-197 | once adoption has run from a restored item, the entries recorded below it, at any depth, have all been taken, each once |
| DeletedSubtrees.DeleteUndone | src/EditorDeleteItemCommand.cpp:41-82 | undoing a delete of any set of subtrees, whatever positions were recorded, puts each back at its recorded place, last to first, up to IDs; each entry names its own recreated item, and the ID changes reported are exactly those of the topmost items |
| DeletedSubtrees.DeleteRedone | src/EditorDeleteItemCommand.cpp:199-451 | redo deletes exactly what undo restored: the forest is the one right after the delete, under the current IDs |
| DeletedSubtrees.DeleteAlternates | src/EditorDeleteItemCommand.cpp:41-451 | undone and redone any number of times, a delete alternates between the same two forests up to IDs, whatever positions were recorded; nothing is deleted twice and nothing else is touched |
| DeletePlaces.SeenBeforeGoesBackIff | src/dlgTriggerEditor.cpp:3230-3312 | with the places read before anything is deleted, as the editor reads them, undo gives the forest back if and only if for each topmost item no deleted sibling before it is listed before it, or all siblings after it are deleted and listed before it |
| DeletePlaces.FirstTwoSwap | src/EditorDeleteItemCommand.cpp:62-82 | of three aliases the first two are selected in order and deleted; undo brings them back as first and third |
| DeletePlaces.LastToFirstGoesBack | src/dlgTriggerEditor.cpp:3230-3312 | siblings selected from the last to the first always go back where they were |
| DeletePlaces.AtTurnGoesBack | src/EditorDeleteItemCommand.cpp:62-82 | with each place read when its item's turn to be deleted comes, undo always gives the forest back |
| DeleteCommandObject.EditorDeleteItemCommand.AdoptRestoredChildren | src/EditorDeleteItemCommand.cpp:177-197 | the recursive walk over the filed entries computes the adoption the theorems are about |
| DeleteCommandObject.EditorDeleteItemCommand.Undo | src/EditorDeleteItemCommand.cpp:41-82 | the loop over the topmost entries, last to first, has the effect on entries, ID changes and unit that the theorems are about |
| DeleteCommandObject.EditorDeleteItemCommand.Redo | src/EditorDeleteItemCommand.cpp:339-451 | deletes each topmost item that is still there under its recorded name |
| DeleteCommandObject.EditorDeleteItemCommand.RemapItemID | src/EditorDeleteItemCommand.cpp:518-528 | rewrites the item and parent ID of every entry in place |
| EditorCommandObjects.EditorAddItemCommand.Undo | src/EditorAddItemCommand.cpp:43-66 | remembers the IDs of the whole subtree in preorder, takes a snapshot unless it has one, and removes the item |
| EditorCommandObjects.EditorAddItemCommand.Redo | src/EditorAddItemCommand.cpp:296-570 | skips its first call; later recreates the snapshot under fresh IDs at the recorded place and lists every ID that changed, position by position |
| EditorCommandObjects.CollectChanges | src/EditorAddItemCommand.cpp:546-554 | pairs old and new IDs position by position and keeps those that differ |
| EditorCommandObjects.EditorAddItemCommand.MergeWith | src/EditorAddItemCommand.cpp:648-664 | absorbs an edit of the new item until the add is finished, dropping the snapshot an earlier undo took |
| EditorCommandObjects.EditorAddItemCommand.FinishAdding | src/EditorAddItemCommand.cpp:666-671 | once its item is finished, the add absorbs no command pushed later, whatever it is and whenever; no other add is affected, and what undo and redo work with stays |
| EditorCommandObjects.EditorAddItemCommand.RemapItemID | src/EditorAddItemCommand.cpp:572-583 | rewrites the stored item and parent ID; neither is the old ID any more |
| EditorCommandObjects.EditorMoveItemCommand.Redo | src/EditorMoveItemCommand.cpp:43-68 | whether it is the skipped first call or a later one, and wherever the move goes, undoing right after it gives the unit back, as long as the item hung where the command recorded it |
| EditorCommandObjects.EditorMoveItemCommand.RemapItemID | src/EditorMoveItemCommand.cpp:70-81 | rewrites the item and both parent IDs; none of them is the old ID any more |
| EditorCommandObjects.EditorModifyPropertyCommand.MergeWith | src/EditorModifyPropertyCommand.cpp:296-328 | absorbs an edit of the same property within the time window; redoing the merged edit is redoing the two in turn, on any forest |
| EditorCommandObjects.EditorToggleActiveCommand.Redo | src/EditorToggleActiveCommand.cpp:40-64 | whether it is the skipped first call or a later one, undoing right after it gives the unit back, as long as the item was as the command recorded it |
| UndoHistory.ReParentRenamed | src/EditorMoveItemCommand.cpp:83-115 | a move made under the IDs items have now is the recorded move itself, seen under those IDs |
| UndoStackObject.EditorUndoStack.RemapItemIDs | src/EditorUndoStack.cpp:318-356 | every command on the stack, done or undone, has the ID rewritten |
| UndoStackObject.EditorUndoStack.IndexChanged | src/EditorUndoStack.cpp:31-65 | follows the index even during a push, and keeps the changes of an undone delete and of nothing else |
| UndoStackObject.EditorUndoStack.PushCommand | src/EditorUndoStack.cpp:155-167 | drops what was undone, merges or appends, forgets the oldest step past the limit, and leaves the index tracking right for the next undo |
| UndoStackObject.EditorUndoStack.Append | src/dlgTriggerEditor.cpp:472 | at most 50 steps are kept, the oldest forgotten |
| UndoStackObject.EditorUndoStack.HandleItemsChanged | src/EditorUndoStack.cpp:212-257 | what listens to the change may itself push in the middle of an undo or redo |
| UndoStackObject.EditorUndoStack.Undo | src/EditorUndoStack.cpp:212-257 | the base undo, the handlers' pushes and then the rewriting of stored IDs, in that order, give the step the run theorems are about |
| UndoStackObject.EditorUndoStack.Redo | src/EditorUndoStack.cpp:259-316 | as for undo, with the ID changes of a redone add |
| UndoStackObject.EditorUndoStack.FinishAddingItem | src/EditorUndoStack.cpp:169-178 | finishes the add of that item wherever it is below the index |
| UndoHistory.ReportedByAdd | src/EditorAddItemCommand.cpp:296-570 | redoing an add brings every stored ID of its subtree to the new one, and its changes leave every other ID alone |
| UndoHistory.HoldsRemapped | src/EditorUndoStack.cpp:318-356 | rewriting stored IDs for the reported changes keeps every command at the latest IDs of the items it was pushed for |
| UndoHistory.TrackedBrings | src/EditorDeleteItemCommand.cpp:41-82 | what an undone delete reports brings every stored ID up to date but those of its inner items |
| UndoHistory.CarriedOver | src/EditorUndoStack.cpp:212-356 | running one command and then rewriting stored IDs leaves every command true |
| UndoPushing.AddAbsorbs | src/EditorAddItemCommand.cpp:648-664 | an add that absorbed an edit still undoes to the forest before the add and redoes to the edited one |
| UndoPushing.ModifyAbsorbs | src/EditorModifyPropertyCommand.cpp:296-328 | merged edits undo to the state before the first and redo to the state after the last |
| UndoPushing.LimitTold | src/dlgTriggerEditor.cpp:472 | forgetting the oldest step keeps what is known of the others |
| UndoPushing.PushTold | src/EditorUndoStack.cpp:155-167 | a push that records the truth keeps the invariant, merged, appended or over the limit |
| RenamedDeletes.MovedRenamed | src/EditorDeleteItemCommand.cpp:41-82 | what a delete takes away does not depend on which IDs its record is written in |
| UndoRuns.Stepped | src/EditorUndoStack.cpp:155-316 | one push, undo, redo or finish keeps the invariant, whatever handlers push meanwhile |
| UndoRuns.RunShowsWhatWasPushed | src/EditorUndoStack.cpp:155-356 | after every run, the forest is the one last pushed at the index the stack is at, up to item IDs |
| UndoRuns.RunKeepsLatestIDs | src/EditorUndoStack.cpp:318-356 | after every run, every stacked command holds the latest IDs of the items it was pushed for, and no ID was ever given to two items |
| UndoRuns.NextCommandHitsItsItem | src/EditorUndoStack.cpp:212-316 | after every run, the next undo finds its item, and so does the next redo of anything but an add |
| UndoRuns.ThereAndBack | src/EditorUndoStack.cpp:212-316 | after any run, n undos and then m redos show what was last pushed at the index arrived at |
| UndoRuns.DeleteReportsAllButInner | src/EditorDeleteItemCommand.cpp:70-82 | undoing a delete brings a stored ID up to date if and only if it is not that of an item deleted below a topmost one |
| UndoLimits.InnerItemLeftBehind | src/EditorDeleteItemCommand.cpp:77-79 | why the run theorem keeps older commands off a delete's inner items: an edit of an alias, then a delete of the folder it is in, undone twice, leaves the alias edited |
| AliasUnitObject.AliasUnit.KillAlias | src/AliasUnit.cpp:471-501 | queues and switches off the first temporary top-level alias of that name not queued yet, by the lookup table, and nothing else |
| AliasUnitObject.AliasUnit.EnableAlias | src/AliasUnit.cpp:430-452 | switches on every alias of that name that is not queued |
| AliasUnitObject.AliasUnit.DisableAlias | src/AliasUnit.cpp:454-468 | switches off every alias of that name, queued or not |
| AliasUnitObject.AliasUnit.Uninstall | src/AliasUnit.cpp:71-110 | lists a package's aliases children first; inside a pass they are only queued and switched off, outside they are deleted |
| AliasUnitObject.AliasUnit.DoCleanup | src/AliasUnit.cpp:538-574 | outside a pass drains the set and then the list, freeing no pointer twice |
| AliasUnitObject.AliasUnit.RemoveAllTempAliases | src/AliasUnit.cpp:226-234 | queues every temporary alias at the top level |
| DeferredDeletes.DeleteUnseenFrees | src/AliasUnit.cpp:556-573 | deleting a list with a seen-set frees just what is listed and not seen and what hung below it when it began, each once, in whatever order it is listed |
| DeferredDeletes.DeleteUnseenFaults | src/AliasUnit.cpp:556-573 | something is freed twice if and only if by its first turn a listed item is gone, from the start or with one deleted before it |
| DeferredDeletes.CollectedFacts | src/AliasUnit.cpp:71-89 | what uninstalling lists is whole subtrees with their top-level items, none twice and none after one it hangs below |
| AliasSafety.KillNested | src/AliasUnit.cpp:471-501 | a kill frees nothing, leaves every alias where it was and what is queued queued, and finds an alias if and only if one of the name can be killed |
| AliasSafety.UninstallNested | src/AliasUnit.cpp:71-110 | an uninstall inside a pass frees nothing and leaves every alias where it was, however often it is repeated |
| AliasSafety.AddPermNested | src/TLuaInterpreter.cpp:8636-8658 | a permanent alias put below any alias found by name, queued or not, leaves every other one where it was with what was queued |
| AliasSafety.KilledStandApart | src/AliasUnit.cpp:538-574 | nothing that is listed hangs below a killed alias |
| AliasSafety.MoveSound | src/AliasUnit.cpp:156-183 | moving an alias to any folder or place while no pass is open loses none and keeps the unit sound |
| DeferredDeletes.ListPackage | src/AliasUnit.cpp:71-89 | the walk over the top level and, children first, below appends exactly what the package's uninstalling is proved to list |
| AliasSafety.CleanupFrees | src/AliasUnit.cpp:538-574 | outside a pass, in whatever order the set is drained, exactly the queued aliases and what hangs below them are freed, each once, and nothing stays queued |
| AliasSafety.CleanupFaultsIff | src/AliasUnit.cpp:538-574 | a cleanup frees something twice if and only if a listed alias is first listed after one it hangs below, or hangs below a killed one |
| AliasRuns.ProcessKept | src/AliasUnit.cpp:309-353 | a pass, with everything its scripts set off, keeps the unit sound, frees nothing before the outermost pass ends, and leaves nothing queued then |
| AliasRuns.VisitLevelNested | src/TAlias.cpp:91-276 | the walk over a list that scripts append to while it is walked comes only to aliases that are there |
| AliasRuns.AnyRunIsSafe | src/AliasUnit.cpp:309-371 | from any sound unit, over every nesting of passes, kills, installs, uninstalls, additions, moves, switches and cleanups: a freed alias is freed again if and only if one put below an alias already listed was then listed itself; none is used once freed, every alias is there or was freed, the depth stays within the limit, and nothing stays stopped at depth 0 |
| AliasRuns.CommandFreesQueuedOnce | src/AliasUnit.cpp:309-371 | while a typed command is processed every alias that was there stays; when it ends, exactly what was queued and what hangs below it is freed, each once; one is freed again if and only if something listed is first listed after one it hangs below |
| AliasRuns.QueuedStaysOff | src/AliasUnit.cpp:430-452 | inside a pass or outside, no script switches a queued alias on again before it is freed |
| AliasRuns.RegrownIsFreedTwice | src/AliasUnit.cpp:556-573 | a run that frees an alias twice: a script uninstalls its package, puts an alias below the package's folder, installs the package and uninstalls it again |
| AliasRunaway.RunawayIsLinear | src/AliasUnit.cpp:309-353 | a command answered with k more of its kind at every level runs exactly 1 + k * 49 passes, and k commands go to the game unexpanded |
| AliasRootList.RootList.ListRootNode | src/AliasUnit.cpp:210-215 | inserts once and records the position of the alias's own node |
| AliasRootList.RootList.UnlistRootNode | src/AliasUnit.cpp:217-224 | erasing by stored position is removing the alias from the order, and forgets the position |
| AliasRootList.RootList.AddRootNode | src/AliasUnit.cpp:129-154 | inserts at the end or before the given place, and nowhere when the list is empty and the place is before its start |
| AliasRootList.RootList.ReParentAlias | src/AliasUnit.cpp:156-183 | a move within the top level, into a folder, out of one or between two, as the root list sees it |
| AliasRootList.NodeErased | src/AliasUnit.cpp:217-224 | the index stays exact for every other alias: no alias twice, the index knows just the listed ones, each position is its own node's |
| AliasRootList.MoveLosesIff | src/AliasUnit.cpp:129-183 | a move within the top level loses the alias if and only if it is the only one and goes to a negative place; no other alias is lost or gained |
| AliasRootList.MoveAndBack | src/AliasUnit.cpp:129-193 | moving an alias within the top level and back to where it was restores the order, even when it was lost in between |
| AliasRootList.FolderAndBack | src/AliasUnit.cpp:129-193 | moving a top-level alias into a folder and back to where it was, or one of a folder out and back in, restores the order of the top level |
| ActionUnits.ActionsAreFreedOnce | src/ActionUnit.cpp:77-130 | however scripts nest, whatever they install, uninstall and add: an action is there as long as a script of its own runs, every action is there or was freed, and the next cleanup outside scripts frees something twice if and only if an action put below one that was listed has been listed since |
| ActionUnits.EventKeepsHeld | src/ActionUnit.cpp:77-130 | while a script runs nothing is freed, so the action it belongs to is still there when it ends |
| ActionUnits.CleanupFreesActions | src/ActionUnit.cpp:102-124 | a cleanup frees exactly what is listed and what hangs below it; something twice if and only if something is first listed after one it hangs below |
| ActionUnits.PendingGoes | src/ActionUnit.cpp:174-185 | after every run, an action goes at the next cleanup outside scripts if and only if it is pending deletion |
| ActionUnits.ButtonPendingUnlisted | src/TLuaInterpreterMudletObjects.cpp:2476-2530 | a button put on a toolbar whose package was just uninstalled is pending through the toolbar without being listed |
| ActionUnits.ButtonIsFreedTwice | src/ActionUnit.cpp:102-124 | a run that frees such a button twice: its package is installed and uninstalled once more before the script ends |
| ActionUnits.ActionUnit.IsPendingDeletion | src/ActionUnit.cpp:174-185 | the walk up from an action finds a listed one if and only if the action hangs below one or is one |
| ActionUnits.ActionUnit.UninstallPackage | src/ActionUnit.cpp:66-100 | lists the package's actions children first, then switches them off or cleans up |
| ActionUnits.ActionUnit.DoCleanup | src/ActionUnit.cpp:102-124 | frees each listed action once, outside scripts |
| CredentialLookupObject.Chain | src/CredentialManager.cpp:459-560 | the places to read for a key, in order |
| CredentialLookupObject.PasswordLookup.constructor | src/CredentialManager.cpp:459-642 | a lookup starts on its whole chain, or on the file alone while its profile's refusal window is open |
| CredentialLookupObject.PasswordLookup.RunLookupStage | src/CredentialManager.cpp:764-800 | runs on to the next keychain read, past places the store is not asked for any more, or to the end of the chain and its outcome |
| CredentialLookupObject.PasswordLookup.ReadFinished | src/CredentialManager.cpp:800-895 | what one answer does to the lookup and to the windows all lookups share |
| CredentialLookupObject.PasswordLookup.DeadlineFired | src/CredentialManager.cpp:584-617 | reads the file if the chain had not come to it, and answers |
| CredentialAnswers.AnswerGood | src/CredentialManager.cpp:764-895 | any answer leaves the lookup waiting further along its chain, or settled with a justified outcome |
| CredentialAnswers.EveryLookupKeepsItsPromises | src/CredentialManager.cpp:570-895 | for every interleaving of lookups, answers, refusals, errors and deadlines: at most one answer each, and one read out until then; Found whenever the file holds a password; NothingStored only when every place said so; at most two refusals from a keychain that never answers; one that has answered is read to the end |
| CredentialAnswers.ChainComesToAnEnd | src/CredentialManager.cpp:764-895 | once the keychain has answered the reads left on the chain, the lookup has answered, exactly once |
| CredentialAnswers.DeadlineSettles | src/CredentialManager.cpp:584-617 | whenever the deadline fires the lookup has answered afterwards, Found if the file has a password |
| CredentialAnswers.WindowReadsOnlyTheFile | src/CredentialManager.cpp:570-582 | while a profile's refusal window is open a new lookup asks the keychain nothing and answers at once from the file |
| CredentialAnswers.WindowsFollowTheStore | src/CredentialManager.cpp:852-892 | the window opens exactly when a lookup without any answer is refused again or has nothing else to ask; any answer closes it; a failure that is no refusal leaves it |
| CredentialAnswers.FailureWithoutATextIsLost | src/CredentialManager.cpp:677-699 | why a failing read must carry a text: one without passes for a read that found nothing |
| CredentialFiles.LastWriterWins | src/CredentialManager.cpp:1564-1757 | for every history of stores, reads and removals by this Mudlet and stores by an older one, each read returns the password written last, and nothing after a removal until the next write |
| CredentialFiles.RetrieveHolds | src/CredentialManager.cpp:1598-1729 | a read returns the last password and leaves the two copies agreeing |
| CredentialFiles.OlderWriteSeenIff | src/CredentialManager.cpp:92-100 | after every history, what an older Mudlet then writes is read back if and only if its copy is stamped newer than the current one, or says the same |
| CredentialFiles.SameSecondIsNotSeen | src/CredentialManager.cpp:92-100 | a history from an empty store in which an older Mudlet's password, written in the same second as one before, is not seen |
| CredentialFiles.ReadsSeeWhatIsLeft | src/CredentialManager.cpp:1598-1729 | for every history, other profiles' writes under the old path included, what each read gives |
| CredentialFiles.LastIsLostIff | src/CredentialManager.cpp:1854-1898 | after every such history, reading gives the password written last if and only if no other profile has written over its only copy, right after an older Mudlet wrote it beside the current file, or at all where the old path is the current one, or the current file was given the same before |
| CredentialFiles.OtherProfileLoses | src/CredentialManager.cpp:1854-1898 | a history from an empty store in which another profile's write under the old path loses the last password |
| CredentialFiles.ClaimedIffUnshared | src/CredentialManager.cpp:1833-1852 | the old path is claimed if and only if no other key can have been filed under it |
| CredentialFileStore.FileStore.StorePassword | src/CredentialManager.cpp:1564-1591 | writes the current file, and only then brings the older copy in step |
| CredentialFileStore.FileStore.RetrievePassword | src/CredentialManager.cpp:1598-1729 | reads whichever copy was written last and migrates what it read |
| CredentialFileStore.FileStore.RemovePassword | src/CredentialManager.cpp:1731-1757 | removes the current file, and the older copy only if it is ours |
| CredentialFileStore.FileStore.RefreshLegacy | src/CredentialManager.cpp:1900-1941 | touches the older copy only if this profile can decrypt it |
| GmcpSignIn.ForgetWins | src/GMCPAuthenticator.cpp:681-694 | after a forget on a connection that runs on a replayed token, until a browser sign-in is offered or the game starts over, nothing but an empty store is asked for and no token is replayed |
| GmcpSignIn.ForgottenRead | src/GMCPAuthenticator.cpp:1085-1214 | a read in flight when the player forgot, whichever of the two kinds, asks for nothing and replays nothing |
| GmcpSignIn.StepOrderly | src/GMCPAuthenticator.cpp:1364-1390 | a scheduled attempt has one live timer, and until it fires nothing of its attempt is under way |
| GmcpSignIn.StaleSignInReadIsIgnored | src/GMCPAuthenticator.cpp:1640-1645 | for every run, a sign-in read in flight when a new attempt began changes nothing once it is done, whatever it gives and whatever has happened since |
| GmcpSignIn.StaleRecoveryKeepsQuiet | src/GMCPAuthenticator.cpp:1148-1196 | a superseded recovery sends nothing, and rewrites the store only on having seen the rejected token in it |
| GmcpSignIn.NoReplayAfterRejection | src/GMCPAuthenticator.cpp:1392-1404 | for every run: after a rejection the next attempt sends no token, from the offer that starts it until the next offer, whatever is read, times out or is answered in between |
| GmcpSignIn.SignInReplayAllowed | src/GMCPAuthenticator.cpp:1630-1703 | a sign-in replays only for its own attempt and forget, never the token known to be rejected, and only where the token may go |
| GmcpSignIn.RecoveryReplayAllowed | src/GMCPAuthenticator.cpp:1125-1160 | a recovery replays only a token that was rotated in meanwhile, and only once a connection |
| GmcpAuthenticator.Authenticator.HandleDefault | src/GMCPAuthenticator.cpp:1244-1270 | Char.Login.Default starts a new attempt, or drops a scheduled one when it names no way to sign in; at most one timer stays live |
| GmcpAuthenticator.Authenticator.ScheduledAttemptDue | src/GMCPAuthenticator.cpp:1378-1390 | a timer of an older schedule does nothing |
| GmcpAuthenticator.Authenticator.StoreReconnectToken | src/GMCPAuthenticator.cpp:681-744 | once the sign-in the connection runs on is forgotten, a token the game rotates in is asked to be stored no more; otherwise it becomes what the store is asked for |
| GmcpAuthenticator.Authenticator.HandleAuthResult | src/GMCPAuthenticator.cpp:1041-1064 | a rejection of a replayed token starts a recovery with what the replay was made with; of a forgotten sign-in it brings nothing back |
| GmcpAuthenticator.Authenticator.ReadFinished | src/GMCPAuthenticator.cpp:1085-1214 | a finished read of either kind is dealt with as the run theorems have it: it keeps what holds of every run, and of a forgotten sign-in it replays nothing and asks for nothing but an empty store |
| GmcpAuthenticator.Authenticator.ResultDeadlineDue | src/GMCPAuthenticator.cpp:1216-1231 | an unanswered replay falls through to another way in, unless a result or a newer attempt came first; of a forgotten sign-in it brings nothing back |
| GmcpAuthenticator.Authenticator.ForgetSavedSignIn | src/GMCPAuthenticator.cpp:789-796 | the store is asked to be empty, and a connection that runs on a replayed token leaves that sign-in behind with everything in flight |
| GmcpAuthenticator.Authenticator.Handle | src/GMCPAuthenticator.cpp:1244-1290 | whatever the object is told, what holds of every run is kept; and once the player has forgotten the sign-in the connection runs on, nothing but a new offer makes it replay a token or ask for anything but an empty store |
| GmcpAuthenticator.ForgetAndGoOn | src/GMCPAuthenticator.cpp:681-796 | told to forget and then anything but a new offer, in any order and number, the object replays no token, asks for nothing but an empty store, and that is what is asked for last |
| SignInReconciler.LastIntentWins | src/SignInStoreReconciler.cpp:130-303 | for every run of requests, successes, failures and reads: no token without its record, none encrypted-only beside leave to send it in the clear, every request answered at most once, and once the newest is reached the store is what it asked for |
| SignInReconciler.OnlyTheNewestIsReached | src/SignInStoreReconciler.cpp:209-275 | only the newest request is ever reported as reached |
| SignInReconciler.ReadsSeeOneStore | src/SignInStoreReconciler.cpp:306-340 | for every run, as long as some read goes on the store it sees does not change, whatever is asked and answered meanwhile |
| SignInReconciler.UndisturbedRequestIsReached | src/SignInStoreReconciler.cpp:150-207 | left alone, a request is reached after its last operation |
| SignInReconciler.StepSafe | src/SignInStoreReconciler.cpp:81-105 | whichever operation fails, what is left in the store is harmless |
| RectDeclutter.DeclutteredRects | src/GeometryManager.cpp:429-469 | the grid gives exactly what the plain scan over all earlier kept rectangles gives, whichever cells share a 32-bit key |
| RectDeclutter.KeptApart | src/GeometryManager.cpp:429-469 | what is kept is pairwise disjoint, and each valid, tall enough rectangle left out overlaps one kept before it |
| RectDeclutter.CommonCell | src/GeometryManager.cpp:440-455 | rectangles that overlap touch a cell in common |
| RectDeclutter.FindsOverlap | src/GeometryManager.cpp:440-460 | looking through the cells a rectangle touches finds an overlap exactly when there is one |
| Meshes.Owns | src/GeometryManager.cpp:596-740 | of every solid, a directed edge tells the face and corner it starts from, and its way back starts from one too |
| Meshes.CylinderMesh | src/GeometryManager.cpp:596-640 | for every number of segments: indices in range, all faces there, each directed edge once and its reverse once |
| Meshes.ConeMesh | src/GeometryManager.cpp:643-678 | the same for the cone, whose tips coincide |
| Meshes.SphereMesh | src/GeometryManager.cpp:710-740 | the same for the sphere for every number of segments and rings, with poles and seam coinciding |
| RetainedInstances.UploadsAreEnough | src/GeometryManager.cpp:1477-1492 | for every run of sets and draws: a draw that uses the buffer leaves in it the instances given last, and before it the buffer was right outside the pending stretch |
| RetainedInstances.DrawFlushes | src/GeometryManager.cpp:1453-1492 | any draw that uses the buffer brings it up to date |
| RetainedInstances.OneSetUploadsTheLeast | src/GeometryManager.cpp:1318-1341 | set once, the stretch written again is the least one with all that changed |
| RetainedInstances.RetainedBuffer.SetTo | src/GeometryManager.cpp:1318-1341 | narrows the changed stretch from both ends and widens what is pending |
| RetainedInstances.RetainedBuffer.RenderRuns | src/GeometryManager.cpp:1453-1503 | each run draws just its stretch of the instances set last, with or without instanced drawing |
| DashWalk.BarBuilder.DashedBar | src/ExitScene.cpp:169-212 | adds the bars of the pattern, or one solid bar, carries the phase on, and notes the first room whose pattern is too fine |
| DashWalk.BarBuilder.Walk | src/ExitScene.cpp:196-211 | a point is covered exactly when its offset plus the phase is in a drawn dash, enough of which lies on the line; bars are in order and apart, and at most 10001 turns are walked, zero-length gaps or not |
| DashWalk.BarBuilder.DashedLine | src/ExitScene.cpp:420-424 | a line in pieces, drawn with one pattern |
| DashWalk.PiecesShowTheWhole | src/ExitScene.cpp:169-212 | cut into pieces a line shows a point if and only if it would whole, but for dashes that the cuts leave too short to draw |
| DashWalk.LineShowsItsPattern | src/ExitScene.cpp:169-212 | what is drawn of a line is its endless pattern from where the line starts, whatever pieces it comes in |
| DashWalk.PhaseIsCarried | src/ExitScene.cpp:198-211 | the phase a piece starts with is how far the line has gone, but for whole turns |
| ExitScene.LeftIsDrawn | src/ExitScene.cpp:584-602 | a line left to the other end is drawn there, solid or dashed as it would have been here, on the same level |
| ExitScene.PairIsDrawnOnce | src/ExitScene.cpp:505-602 | which end of a two-way exit draws its line: the lower-numbered one if clear, else the other if clear |
| ExitScene.SceneDrawsPairsOnce | src/ExitScene.cpp:505-634 | in a whole scene a two-way exit between two shown rooms apart is one whole line if one of its ends is clear of custom lines and one-way exits, and none otherwise |
| ExitScene.Builder.HasOneWayExit | src/ExitScene.cpp:141-149 | finds an uncovered one-way exit if and only if there is one |
| ExitScene.Builder.AddRoom | src/ExitScene.cpp:498-613 | adds the lines of one room's exits, in the order of directions |
| ExitScene.Builder.AddExit | src/ExitScene.cpp:515-612 | the branches of one exit |
| ExitScene.Build | src/ExitScene.cpp:617-633 | adds the lines of the area's shown rooms |
| GridSnapping.SnapIsOnGrid | src/CustomLineSession.cpp:76-82 | snapping twice is snapping once, and moves a point at most a quarter |
| GridSnapping.RestoringIsCautious | src/CustomLineSession.cpp:242-296 | after arbitrary edits a point changes only into an original that snaps to it, no original is used twice, and one left over fits no point left as it was |
| GridSnapping.SnapThenRestorePermutes | src/CustomLineSession.cpp:218-296 | with no edit in between, the same points come back, each position in its own grid cell |
| GridSnapping.SnapThenRestoreIsExactIff | src/CustomLineSession.cpp:261-284 | the very same line comes back if and only if no point that snapping moves comes before one that stands where it is moved to |
| GridSnapping.ApartIsExact | src/CustomLineSession.cpp:261-284 | so it does when no two points snap together |
| CustomLineSession.SnapOnThenOff | src/CustomLineSession.cpp:40-73 | in any session, switching snapping on and off again gives the line its points back and changes nothing else |
| CustomLineSession.LineSession.SetSnapToGridEnabled | src/CustomLineSession.cpp:40-73 | switches snapping, snapping or restoring the current line |
| CustomLineSession.LineSession.RestoreOriginalLineIfNeeded | src/CustomLineSession.cpp:242-296 | restores only the line that was remembered, if it is still the current one, and forgets it either way |
| CustomLineSession.RestorePoints | src/CustomLineSession.cpp:261-284 | the two passes over the points compute the restored line |
| CustomLineSession.LineSession.SnapLineToGrid | src/CustomLineSession.cpp:218-240 | snaps every point that is not on the grid already |
| FontManager.AlwaysCounted | src/FontManager.cpp:120-213 | after every run, whatever the names: a font is registered exactly while some package holds it and exactly while its file is shared, and no two files share an ID |
| FontManager.PathsStayLiveIff | src/FontManager.cpp:158-213 | every non-failed loaded path names a registered font through every run of these owners' calls, if and only if no two of the owners have the same affiliation key |
| FontManager.LoadedPathsStayLive | src/FontManager.cpp:120-213 | for every run of loads and unloads by profiles and by Mudlet itself: every non-failed loaded path names a font that is registered, and every registered font is held |
| FontManager.PlainNamesAreToldApart | src/FontManager.cpp:172-182 | profiles, whose names have no slash, and Mudlet itself never share a key, however packages are named |
| FontManager.SecondPackageIsNotCounted | src/FontManager.cpp:120-176 | a second package of one profile that loads the same file is not counted |
| FontManager.Manager.LoadFont | src/FontManager.cpp:120-176 | reuses an ID some profile already has for the file |
| FontManager.Manager.UnloadFonts | src/FontManager.cpp:178-213 | gives up a package's fonts, removing from Qt those no one holds any more, and the paths of this profile |

## Left out

- UndoRuns.RunShowsWhatWasPushed: does not cover undo macros, changes made outside the stack, or records that are not true when pushed. A delete may be of any set of subtrees, with places read before or during it, as long as undoing it gives the forest back (`SeenBeforeGoesBackIff` says when) and no step still to be undone names one of its inner items (`InnerItemLeftBehind` shows why).
- UndoStackObject.EditorUndoStack.HandleItemsChanged: does not model which views listen; the edits a handler makes are given as a list, and each must be possible and truly recorded when its turn comes.
- UndoStackObject.EditorUndoStack.PushCommand: keeps commands as values on the stack, so sharing of a command object is not modelled; the object forms of the commands are separate classes.
- EditorCommandObjects.EditorAddItemCommand.Redo: does not model a snapshot that fails to be recreated, nor the old item ID kept beside the new one, which nothing modelled here reads.
- XML snapshots: taken as exact copies; the six kinds of items are taken as one.
- AliasRuns.AnyRunIsSafe: the editor moves no alias while a pass is open, and none that is queued, which it does not show; an installed package comes with all its aliases switched on, and new permanent aliases compile. Patterns are told by which aliases match, and what a script does is given with the command.
- AliasUnitObject: processing itself is modelled as a function of the unit, not as a loop over the snapshot list.
- ActionUnits.ActionsAreFreedOnce: actions are not moved to another folder; tool bars, menus and switching a button on are not modelled.
- AliasRootList.RootList.ReParentAlias: the lists inside folders are not part of the root list's model.
- CredentialAnswers.EveryLookupKeepsItsPromises: NothingStored is justified only when failing reads carry an error text (`FailureWithoutATextIsLost`); timers fire at any time, and their precision is not modelled.
- CredentialLookupObject: storing under new names and removing in the keychain are not modelled, only that a password found under an old name is filed again.
- CredentialFiles.LastWriterWins: one profile on the old path, no write that fails, and older Mudlets write passwords that are not empty, each stamped later than what was there; `OlderWriteSeenIff` and `LastIsLostIff` say what is lost otherwise. Encryption is taken as failing under another profile's key.
- CredentialFiles.LastIsLostIff: other profiles write under the old path but do not remove what is there.
- GmcpSignIn.ForgetWins: a token stands for its hash, hashes being taken not to collide; what the store gives to a read is arbitrary; messages to the player are not modelled.
- SignInReconciler.LastIntentWins: store operations are taken to be all or nothing.
- Meshes: places, not coordinates; that different segments of a rim or ring are different places is trigonometry. Normals, and the box and pyramid, are fixed tables and left out.
- RectDeclutter.DeclutteredRects: coordinates are exact numbers, and cell keys are cut to 32 bits as the program cuts them.
- RetainedInstances.RetainedBuffer.RenderRuns: runs lie within the instances, as the scene builds them; the GPU's own state is not modelled.
- DashWalk.BarBuilder.DashedBar: lengths are exact numbers and a line is told by its length; negative dashes do not occur.
- ExitScene.SceneDrawsPairsOnce: lines are told by their ends, kind and level; bars, glyphs, doors, arrowheads and colors are not modelled, and two rooms in one place have no line to draw.
- GridSnapping.SnapThenRestorePermutes: points are compared exactly; only the test for moving a point at all allows for rounding.
- CustomLineSession.LineSession.SetSnapToGridEnabled: repainting and marking the map as unsaved are not modelled.
- FontManager.AlwaysCounted: Qt answers a new file with a failure or an ID no registered font has.
- OpenGL, widgets, logging, toolbars, autocompletion, gifs and themes are not part of this model.
