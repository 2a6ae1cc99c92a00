# Verification of cpa-auto-refresh-quota

The plugin sends a small model request through each credential of a CPA host, at set times of day or
on demand. To make the host's scheduler pick the credential, it raises that credential's priority in
the shared credential file for the duration of one call, and routes the call with a one-shot token.
This project models the parts of the plugin where that can go wrong, and proves what they promise:

- **The temporary-priority transaction.** `Credential` and `Override` are the file format and the
  raise/restore algebra. `History` is the transaction as a step system over the shared files: outside
  writes, compare-and-swap commits, file and runtime reads, model calls, denials and crashes.
  `CredentialHost` is the host as a class whose files outside writers change before everything the
  plugin does and under which the plugin may go down at any point, `PriorityService` the retry and
  polling loops over it, and `RunLoop` a whole run and any number of runs, recoveries and restarts. Each method keeps a ghost trace a valid
  history, so the theorems about histories are theorems about the methods. `Alignment` is what a run's
  overrides do to the order of priorities, and how a dry run predicts them.
- **The service lifecycle.** `ServiceState` has each critical section under the service's mutex as a
  function from fields to fields. `Lifecycle` interleaves them: configure, manual and shutdown callers,
  schedulers, runs and recoveries, each with its own program counter. `Cancellation` and `Occurrences`
  prove further invariants of it, `Unparsed` what becomes of a configuration that does not parse,
  and `Recoveries` that a recovery called pending is at work. `ServiceMethods` is the service as a
  class whose methods are the critical sections: each is a step of the lifecycle, and its contract says
  what the invariants make of it where the program calls it; its `ApplyConfig` runs a whole
  reconfiguration through them.
- **The pin protocol.** `Pins` is the registry and one uninterrupted pick or call, `PinProtocol` the
  interleaving of calls and picks in which match, mark and answer are separate steps.
- **Civil-time scheduling.** `Civil`, `Configuration` and `Schedule`. `Auths` is credential selection
  and the priority tier the scheduler sees. `Text` is strings and integers.

`dafny verify dfyconfig.toml` checks everything.

## Assumptions

- The digest check and the rename of a commit are one step. The program has a small window between
  them (docs/INVESTIGATION.md:193). SHA-256 is injective, so a digest stands for the bytes it was
  computed from.
- A file's bytes are a JSON document and a layout number. Marshalling always picks the same layout.
  What a number literal converts to as a float is carried with the literal. Marker members are read
  by their exact names.
- Anything the environment decides (whether a request is denied, a context ends, a poll goes on, what
  the runtime reports) is an arbitrary choice at the point where it is asked, which covers every
  schedule of it. Each is an event of the history, so that what the plugin does not do can be traced
  to what kept it from doing it. Polling loops stop after an arbitrary number of polls; nothing is
  claimed about how long they run.
- A credential index is always resolved to the same path. Tokens are never drawn twice. A goroutine or
  run is known by a number that is handed out once.
- In every zone the civil date never moves backwards and different days print differently. The clock
  does not run backwards between two turns of a schedule loop and timers do not fire early. The day
  `dayOffset` days on is the civil day number plus the offset.
- Case folding is of ASCII letters. Library sorts are insertion sorts of which only order and
  permutation are promised.
- "Outside writers that leave the override alone" (`Benign`) change neither `priority` nor the marker;
  "that never mark" (`NeverMarks`) never add a marker. "A complete listing" names every file under an
  index by which it is read. "The runtime follows the files" (`RuntimeFollowsFiles`): listings and
  runtime reads show the priority that is in the file at that moment, or a fixed one for a credential
  without a file. Each theorem says which of these it needs.

## What the proofs found

- An override built for a blank auth index carries a marker that no restore accepts
  (`Override.BuiltIsRestorableIffNamed`). The host refuses to save such a file, so it is never written.
- An outside writer who sets `priority` to a value that reads as the override's own number is not
  seen, and is undone (`Override.RestoreTouchesOnlyItsEdit`). Any other outside priority survives every
  run, recovery and crash (`History.OutsidePrioritySurvives`), except one that reads as the override of
  a marker the plugin remembers and the file has lost; `History.CommitKeepsOwed` is the exact condition
  and `History.UndoneFromMemory` a case.
- The priority a restore waits for is the one it wrote unless the marker disagrees with its own record
  (`Override.ExpectedPriorityIsWritten`); the plugin never makes such a marker.
- Restoring twice is not always restoring once: `Override.RestoreTwice` is the exact condition and
  `Override.RestoringTwiceCanDiffer` a case in which it fails.
- Recovery reports "changed" if and only if a runtime read confirmed one of its saves during the wait
  for it (`PriorityService.RecoverStalePriorityOverrides`); when it has saved and every read still shows
  the override it reports "nothing changed", with an error (`PriorityService.SavedButUnconfirmed`).
- Markers the plugin wrote are never refused: while outside writers leave the override alone, a recovery
  fails only for a denial, a file that keeps changing, time that is up or the plugin going down
  (`PriorityService.OwnMarkersAreAccepted`).
- Daily times may be written with signs: `+5:00` is five o'clock and `-0:30` half past midnight
  (`Configuration.AcceptedTimes` has the exact set).
- A restore that fails leaves its marker in the file for the next recovery. Then the loop stops, and
  every other file the run raised or was to recover ends unmarked (`RunLoop.ExecuteRun`).
- When recovery restores nothing, the run keeps the listing it took before recovery looked at the files.
  A file can then have been marked when it was listed (`RunLoop.ListedWhileMarked`), exactly if an
  outside writer took the marker away in between (`RunLoop.ExecuteRun`, `RunLoop.OnlyOutsidersUnmark`).
- A pinned call's own pick is matched exactly when the caller's headers hold no value under another
  spelling of the reserved name (`Pins.OwnPickIsMatched`).

## Model

| member | source | states |
|---|---|---|
| Text.ParseItoa | internal/refreshquota/priority.go:187-212 | Every 64-bit integer that is printed is read back as itself. |
| Text.TrimStrips | internal/refreshquota/filter.go:51-54 | Trimming takes all white space off both ends and nothing else. |
| Text.BlankIsAllSpace | internal/refreshquota/filter.go:51-67 | Blank is what consists of white space only. |
| Text.LowerAt | internal/refreshquota/filter.go:53-54 | Lower-casing changes the ASCII capitals and nothing else. |
| Civil.CanonicalTimeIsDetermined | internal/refreshquota/config.go:340-377 | Either the text or the second of day determines a parsed time. |
| Civil.TextsInOrderOfDay | internal/refreshquota/config.go:334-377 | Canonical texts are in string order exactly as the times are in the order of the day. |
| Civil.EverySecondOfTheDay | internal/refreshquota/config.go:340-377 | Every second of the day is that of a canonical time, and no canonical time has another. |
| Configuration.ParseCanonicalText | internal/refreshquota/config.go:340-377 | The text of a parsed time parses back to that time. |
| Configuration.AcceptedTimes | internal/refreshquota/config.go:340-377 | A text parses to a time if and only if, white space around it aside, it is the hour and the minute, or those and the second, with colons in between, each spelled as one digit, two digits, or a sign and a digit. |
| Configuration.NormalizeTimes | internal/refreshquota/config.go:317-338 | Refused exactly when there are more than 64 values or one does not parse; otherwise the result holds each time named by some value, once, in strictly increasing order of the day. |
| Configuration.SortTimes | internal/refreshquota/config.go:334-336 | A permutation in increasing order of second of day. |
| Configuration.EqualStrings | internal/refreshquota/config.go:440-450 | True exactly for equal sequences. |
| Configuration.Equivalent | internal/refreshquota/config.go:416-438 | True exactly when the configurations agree in everything but the zone object. |
| Auths.CollectStrings | internal/refreshquota/filter.go:91-103 | The set of trimmed, optionally lower-cased, non-empty values. |
| Auths.EligibleMeans | internal/refreshquota/filter.go:50-89 | Eligible are exactly the credentials with an ID and an index, enabled, available and in a file as far as asked for, of a chosen provider and an included index if any are named, and of no excluded index. |
| Auths.WantedMeans | internal/refreshquota/filter.go:8-22 | Wanted are exactly the eligible credentials whose index was requested, or all of them when none was. |
| Auths.Selected | internal/refreshquota/filter.go:8-22 | Exactly the listed credentials that are requested (if any are) and eligible. |
| Auths.SortAuths | internal/refreshquota/filter.go:23-30 | A permutation in which nothing precedes a smaller element. |
| Auths.OrderedByProviderAndIndex | internal/refreshquota/filter.go:23-30 | In the order of targets, folded providers are in string order, and the indices of one provider too. |
| Auths.FilterAuths | internal/refreshquota/filter.go:8-31 | Exactly the wanted credentials, each as often as listed, ordered by provider and index. |
| Auths.HasDuplicateAuthIdentity | internal/refreshquota/filter.go:32-48 | True exactly when two credentials share a trimmed ID or a trimmed index. |
| Auths.HighestAvailablePriority | internal/refreshquota/priority.go:36-49 | Finds a value exactly when some credential is not disabled, and then `Highest`. |
| Auths.HighestIsMaximum | internal/refreshquota/priority.go:36-49 | `Highest` bounds every enabled credential's priority and is one of them. |
| Auths.MaximumIsHighest | internal/refreshquota/priority.go:36-49 | The converse: an attained bound is `Highest`. |
| Auths.AlignmentKeepsTopTier | internal/refreshquota/priority.go:36-56 | Raising an enabled credential to the desired priority makes the top tier the old one plus the target; raising it further would leave the target alone there. |
| Credential.PriorityOfInteger | internal/refreshquota/priority.go:187-212 | The number in a priority field written by the plugin is the number written. |
| Credential.PriorityOfText | internal/refreshquota/priority.go:187-212 | A number written as a string, with any white space around it, counts as that number. |
| Credential.PriorityOfOthers | internal/refreshquota/priority.go:187-212 | A literal with a fraction or an exponent counts as what it truncates to if it converts; what is neither a number nor a string counts as zero. |
| Credential.ReadEncodedMarker | internal/refreshquota/priority.go:18-27 | Writing a marker out as JSON and reading it back loses nothing, for every marker. |
| Credential.OtherMembersAreIgnored | internal/refreshquota/priority.go:18-27 | Members of a marker object other than the eight do not matter. |
| Credential.LackingMembersAreZero | internal/refreshquota/priority.go:18-27 | A marker object without members reads as the zero marker. |
| Credential.DecodeEncodedMarker | internal/refreshquota/priority.go:155-167 | An encoded marker is accepted if and only if it is the plugin's, names a credential and carries the original it promises. |
| Override.BuildPriorityOverrideJSON | internal/refreshquota/priority.go:58-91 | The step-by-step edit computes the specified override or refuses for the specified reason. |
| Override.RestorePriorityOverrideJSON | internal/refreshquota/priority.go:109-153 | The step-by-step edit computes the specified restoration or refuses for the specified reason. |
| Override.BuildsUnmarked | internal/refreshquota/priority.go:58-65 | Build accepts exactly the JSON objects without a marker. |
| Override.RestoresItsOwn | internal/refreshquota/priority.go:109-131 | Restore accepts exactly the JSON objects whose marker, if any, decodes and is of the caller's transaction. |
| Override.BuiltDocument | internal/refreshquota/priority.go:58-91 | A built file has the override priority and the marker, the marker records the original field or its absence, and every other field is as before. |
| Override.BuiltMarker | internal/refreshquota/priority.go:71-85 | The marker in a built file decodes to the one returned, unless the auth index is blank. |
| Override.RestoreUndoesBuild | internal/refreshquota/priority.go:58-153 | Restore after build, with any edits to other fields in between and with or without the lease, gives the edited document with the original priority field and no marker; without edits, the original document. |
| Override.BuiltIsRestorableIffNamed | internal/refreshquota/priority.go:109-167 | A built file is restorable if and only if the auth index is not blank. |
| Override.RestoreTouchesOnlyItsEdit | internal/refreshquota/priority.go:132-152 | A restore that acts always removes the marker and keeps other fields; the priority field survives exactly when its number is not the override's, and otherwise becomes what was recorded; nothing needs saving exactly when the change was external and there was no marker. |
| Override.ExpectedPriorityIsWritten | internal/refreshquota/priority.go:132-152 | The priority the caller then waits for is the number in the restored file if and only if the change was external or the marker agrees with its own record. |
| Override.BuiltMarkerAgrees | internal/refreshquota/priority.go:67-79 | Every marker made by build agrees with its own record. |
| Override.RestoreTwice | internal/refreshquota/priority.go:109-153 | Restoring again with the same marker succeeds, and changes nothing if and only if the change was external, the recorded original does not read as the override, or it is the caller's. |
| Override.RestoringTwiceCanDiffer | internal/refreshquota/priority.go:132-152 | A file and a marker of one transaction for which restoring twice is not restoring once. |
| Override.StrangersAreRefused | internal/refreshquota/priority.go:117-125 | Against a decodable marker in the file, a caller's marker is accepted if and only if it names the same credential, run and override. |
| Override.OneTransactionIff | internal/refreshquota/priority.go:67-125 | Two overrides are one transaction, and restore accepts one by the other's marker, if and only if they name the same trimmed credential and run and the same number. |
| History.CrashAnywhere | internal/refreshquota/priority_service.go:15-187 | Any history can be cut off by a crash at any step, the files stay as they were, and only markers still in a file can be undone afterwards. |
| History.NoLostUpdate | internal/refreshquota/priority_service.go:85-187 | At every instant of every history, all fields of a file other than priority and marker are those of the latest outside write. |
| History.AlwaysSound | internal/refreshquota/priority_service.go:15-187 | At every instant, with benign outside writers: no marker and the original priority field, or a readable marker recording exactly that original together with the override in force. |
| History.MarkerFreeMeansRestored | internal/refreshquota/priority_service.go:128-187 | A file without a marker is the latest outside content with the original priority or its absence. |
| History.RecoverableAnywhere | internal/refreshquota/priority_service.go:15-65 | Whenever a marker is in a file, the restore that recovery would do from the file alone is accepted, is a legal step, and yields the latest outside content with the original priority and no marker. |
| History.MarkedStep | internal/refreshquota/priority_service.go:85-187 | A raise adds its file to the marked ones, an undo removes its file, nothing else adds one. |
| History.AtMostOneMarker | internal/refreshquota/service.go:449-469 | In any history that raises only while no file is marked, at most one file carries a marker at any instant. |
| History.MarkersOnlyGo | internal/refreshquota/priority_service.go:15-65 | Between two instants without a raise, markers only disappear. |
| History.NoMarkersMeansAllRestored | internal/refreshquota/priority_service.go:15-65 | When no file is marked, every file is the latest outside content with its original priority. |
| History.UndecodableStays | internal/refreshquota/priority.go:93-107 | The plugin never writes a file whose marker does not decode: it stays as it is until an outside writer changes it. |
| History.CommitKeepsOwed | internal/refreshquota/priority.go:126-152 | A commit keeps the priority a file is owed if and only if it is not an undo, from memory, of a marker the file has lost and that recorded another priority. |
| History.UndoneFromMemory | internal/refreshquota/priority.go:126-152 | A history in which an outside writer drops the marker and sets the override's own number, and the restore takes that number away. |
| History.OutsidePrioritySurvives | internal/refreshquota/priority_service.go:15-187 | A priority an outside writer leaves owed survives every run, recovery and crash, unless it reads as the override of a remembered marker the file has lost; an unmarked file then holds it. |
| CredentialHost.Host.constructor | cmd/cpa-auto-refresh-quota/main.go:427-528 | A host starts with its files and an empty history. |
| CredentialHost.Host.ListAuths | cmd/cpa-auto-refresh-quota/main.go:427-441 | A listing is recorded in the history as the last thing that happened; a complete host lists every file; without one, the listing was denied or the plugin is down. |
| CredentialHost.Host.GetRuntimeAuth | cmd/cpa-auto-refresh-quota/main.go:443-453 | Every read of a plugin that is up is recorded in the history as the last thing that happened, with what it showed or as failed. |
| CredentialHost.Host.ExecutePinned | cmd/cpa-auto-refresh-quota/main.go:629-673 | A call is made, once, unless the plugin is down. |
| CredentialHost.Host.GetAuthFile | cmd/cpa-auto-refresh-quota/main.go:455-491 | A successful read has the index asked for, its path, and exactly the bytes the file then holds, digest included, and is in the history; a failed one was denied, got a reply that does not pass the checks, or the plugin is down. |
| CredentialHost.Host.SaveAuthFile | cmd/cpa-auto-refresh-quota/main.go:493-528 | Success is one commit, the last thing that happened, replacing exactly the bytes the digest names; every failure leaves the files to outside writers; "changed" is said only when the bytes differ, and any other failure is a denial, a request without a name or an object, or the plugin being down. |
| CredentialHost.Host.AtomicWriteAuthFile | cmd/cpa-auto-refresh-quota/main.go:601-627 | The same, with outside writes while the temporary file is being prepared. |
| CredentialHost.Host.ReplaceAuthFileCAS | cmd/cpa-auto-refresh-quota/replace_unix.go:14-36 | Replaces the content exactly when it succeeds, and then the content was the expected one; otherwise changes nothing. |
| CredentialHost.FilesAreRecoverable | internal/refreshquota/priority_service.go:24-26 | An ordinary file credential with an index is recoverable, however its source is spelled. |
| PriorityService.WaitForRuntimePriority | internal/refreshquota/priority_service.go:206-222 | Confirms if and only if a runtime read during the wait showed that credential with that priority; gives up only after a read that did not, once the time is up, or when the plugin is down. |
| PriorityService.GetAuthFileUntil | internal/refreshquota/priority_service.go:189-204 | What it returns is the file's content at that moment; it writes nothing; it fails only when the file cannot be read until the time is up, or when the plugin is down. |
| PriorityService.BeginPriorityOverride | internal/refreshquota/priority_service.go:78-126 | A lease is returned if and only if the override was committed, exactly once, also when an error comes with it; an error with a lease means exactly that no runtime read since the commit showed the override, and that the time is up; success with a lease ends with such a read; success without one means nothing was to be done and nothing happened; a credential without a file is refused at once; any other failure has its reason in the history: the file could not be read, already carries a marker, could not be saved, or was rewritten by outsiders three times. |
| PriorityService.RestorePriorityFile | internal/refreshquota/priority_service.go:156-187 | At most one commit, an undo of the given marker; success means the file was seen without a marker, with the content the algebra prescribes for what was read, and the runtime then showed that priority; after a commit, failure means exactly that no runtime read since showed it; every failure has its reason in the history: the file could not be read until the time was up, refuses the marker, could not be saved, was rewritten by outsiders three times, or was not confirmed in time. |
| PriorityService.RestorePriorityOverride | internal/refreshquota/priority_service.go:128-154 | Nothing happens without a lease; with one, everything that restoring its file promises. |
| PriorityService.RecoverOne | internal/refreshquota/priority_service.go:24-52 | A path seen before is not looked at again; only a file found marked is written, once; without an error a path looked at for the first time is seen without a marker; after the commit there is an error exactly when no runtime read since confirmed it; a file is called unsuitable only if at some instant it carries a marker that does not decode or is of another transaction than one it carried before, and any other error has its reason in the history. |
| PriorityService.RecoverStalePriorityOverrides | internal/refreshquota/priority_service.go:15-65 | Only undo commits, each on a file found marked, no path twice, one after the other with its wait; every listed file is seen without a marker or has its error, whatever happens to the others, unless the context ends; every error has its reason; `changed` if and only if a runtime read confirmed some save during its wait, which is when some save is not reported unconfirmed. |
| PriorityService.RecoveryClears | internal/refreshquota/priority_service.go:15-65 | Recovery unmarks every file it has seen free, writes only files marked when it began, and marks none. |
| PriorityService.RecoveryClearsListed | internal/refreshquota/priority_service.go:15-65 | After an error-free recovery no file that its listing names is marked. |
| PriorityService.CompleteRecoveryClearsAll | internal/refreshquota/priority_service.go:15-65 | After an error-free recovery of a complete listing no file is marked. |
| PriorityService.UndecodableIsReported | internal/refreshquota/priority_service.go:27-43 | A listed file whose marker does not decode, and that no outside writer touches, is left as it is and has its error. |
| PriorityService.OwnMarkersAreAccepted | internal/refreshquota/priority_service.go:27-47 | From a start without markers and with outside writers that leave the override alone, no recovery of a plugin that stays up has an error about a marker: it reads every marker and tries to restore it. |
| PriorityService.ChangedByOutsider | internal/refreshquota/priority_service.go:85-110 | While the plugin only looks, a file that changes was written by an outsider in between. |
| PriorityService.SavedButUnconfirmed | internal/refreshquota/priority_service.go:47-52 | A recovery that commits once, waits, and sees only the override: no save is confirmed, so by its exact condition it reports no change. |
| RunLoop.RunReport.Record | internal/refreshquota/service.go:653-655 | One result, counted once under its own outcome, and published with the counts. |
| RunLoop.CheckTarget | internal/refreshquota/service.go:524-584 | A target goes ahead only if the runtime read shows the same ID and index and it is eligible; a target that does not has a runtime read in the history that gives its result: one that was denied, shows another index or another ID, or gives the reason to skip it; or the plugin is down. |
| RunLoop.RaiseAndCall | internal/refreshquota/service.go:595-629 | After the runtime read: at most one raise, of that credential, to the desired priority and only if required; then at most one call, with nothing of the plugin's in between but a runtime read of the override it needs; a lease exactly when something was raised. Unless the plugin goes down, the call is made whenever no override is required or one is confirmed, an override that is written is confirmed unless the time is up, and one that is required is written unless the credential has no file or Begin's reasons keep it from being. |
| RunLoop.AttemptTarget | internal/refreshquota/service.go:586-655 | The same followed by the restore; the result succeeds exactly when the call replied 2xx and the restore did not fail, and otherwise says why; unless the restore failed, the raised file has since been seen without a marker and ends without one, and no other file gains one; a restore fails only for a reason in the history. |
| RunLoop.Judge | internal/refreshquota/service.go:596-652 | An attempt's result succeeds exactly when override, restore and a 2xx reply all did, carries the reply's status exactly when the first two did, and has an error exactly when it does not succeed. |
| RunLoop.RefreshTarget | internal/refreshquota/service.go:517-671 | One target, one result, published; an attempt only after a runtime read of the same, eligible credential, with nothing of the plugin's before it; the report's error is set exactly when a restore failed. |
| RunLoop.TakeTurn | internal/refreshquota/service.go:517-671 | One turn keeps everything the loop knows, and leaves the remaining targets out exactly when it stops the loop. |
| RunLoop.RefreshTargets | internal/refreshquota/service.go:517-671 | Every override and call belongs to an attempt on a target, which begins with a runtime read of the same, eligible credential, and every attempt does all it should or has its reason; every other target's result is accounted for by a runtime read; attempts follow the targets and one another in time; whatever was raised was seen unmarked again unless its restore failed; on every exit the counts are the numbers of results with each outcome, plus as skipped the targets without one; at every publication they are the numbers of results; results follow the targets; a failed restore is in the last attempt, has its reason, and once it has begun nothing is raised or called any more; canceled means the context has ended. |
| RunLoop.NothingFollowsAFailedRestore | internal/refreshquota/service.go:606-665 | From the moment a restore that fails begins until the end of the loop, nothing is raised or called. |
| RunLoop.CalledUnlessHindered | internal/refreshquota/service.go:586-629 | Every credential an attempt of a run is on is called, unless between its re-read and its restore a request is denied, a file read is not of an unmarked credential file, an outsider writes, time is up or the plugin goes down, or it needs an override and has no file. |
| RunLoop.LoopUnmarks | internal/refreshquota/service.go:600-665 | A file that the loop raises, or that is unmarked when it begins, ends unmarked unless a restore of it failed. |
| RunLoop.CallsAreDistinct | internal/refreshquota/service.go:485-489 | No two calls of a run are for the same trimmed ID. |
| RunLoop.DryRun | internal/refreshquota/service.go:491-508 | One planned result per target, in order. |
| RunLoop.PrepareRun | internal/refreshquota/service.go:452-484 | The targets are the wanted credentials of the last listing, each as often as listed and in order, and `highest` is that listing's highest priority; nothing is raised or called, and nothing of the plugin's happens after that listing; in the end no file named by the listing it recovered by is marked, and none at all with a complete listing; it fails only when a listing was denied, the recovery has an error with its reason, or the plugin is down. |
| RunLoop.OnlyOutsidersUnmark | internal/refreshquota/service.go:461-480 | With only passive events in between and outside writers that never mark, a file that ends unmarked was marked before if and only if an outside writer unmarked it. |
| RunLoop.ListedWhileMarked | internal/refreshquota/service.go:461-480 | A history in which a file is marked when the run lists and unmarked when its loop begins. |
| RunLoop.ExecuteRun | internal/refreshquota/service.go:440-673 | The targets are the requested and eligible credentials of the run's last listing; every override and call belongs to a distinct target, eligible when listed and when re-read, after that re-read, and none follows the start of a restore that fails; a file the run raised or was to recover ends marked only if its restore failed, so none does without a report error, and then with a complete listing no file does; with a complete listing no file is marked when the loop begins, at a re-read or at a raise, and those marked when the run listed are exactly those outside writers then unmarked; every attempt does all it should or has its reason, and every other target is accounted for by a runtime read; the report is as the loop leaves it; the loop is not reached only for a denied listing, a recovery that has an error with its reason, duplicate identities among the targets, a body that cannot be encoded, or because the plugin is down; canceled means the context has ended. |
| RunLoop.Session | internal/refreshquota/service.go:168-179 | Over any sequence of listings, runs and startup recoveries in which the plugin goes down anywhere and restarts, at most one file ever carries a marker, and after an error-free last run or recovery every file is the latest outside content with its original priority. |
| RunLoop.StartupRecovery | internal/refreshquota/service.go:155-195 | By a listing taken some time before: raises nothing; when it succeeds and the listing was complete no file is marked; when it fails, some error has its reason in the history. |
| Alignment.UnmarkedIsUnmoved | internal/refreshquota/priority_service.go:15-187 | A credential whose file is unmarked at two instants has the same priority at both. |
| Alignment.RereadAsListed | internal/refreshquota/service.go:524-588 | When the runtime follows the files, every credential a run attempts is re-read with the priority it was listed with. |
| Alignment.DryRunPredicts | internal/refreshquota/service.go:491-505 | Then every attempted target's result requires exactly the override, to exactly the priority, that a dry run on that listing announces, and no other result requires one. |
| Alignment.FileJoinsTheTop | internal/refreshquota/priority.go:36-56 | Giving an enabled credential's file the highest priority adds its enabled credentials to the top tier and moves nobody else. |
| Alignment.OverrideKeepsTopTier | internal/refreshquota/service.go:589-595 | From the moment a run has written an override until it writes again, the top tier is the listed one plus the enabled credentials of that file, the target among them. |
| Schedule.NextOccurrence | internal/refreshquota/schedule.go:10-36 | The nested search returns the least valid instant strictly after now among the 370 days searched, and fails if and only if there is none or no zone. |
| Schedule.NextIsUnique | internal/refreshquota/schedule.go:10-36 | Neither the instant nor the label depends on the order of the times, and no answer means there is none. |
| Schedule.NextIsNoLater | internal/refreshquota/schedule.go:10-36 | A time of day that exists on some day of the coming year is not missed: there is a next occurrence, and it is no later than that. |
| Schedule.NextIsScheduled | internal/refreshquota/schedule.go:10-36 | The answer is the instant of one of the configured times on the day the wall shows. |
| Schedule.OccurrenceIDsDistinct | internal/refreshquota/schedule.go:38-44 | In one zone, equal occurrence IDs mean the same instant and the same time of day. |
| Schedule.OccurrenceIDsTellZones | internal/refreshquota/schedule.go:38-44 | Where days are printed alike, equal IDs also mean the same zone name and time of day. |
| ServiceState.RememberKeepsMemory | internal/refreshquota/service.go:427-438 | Remembering a new ID keeps the order free of repetitions, at most 512 long, and equal in content to the set. |
| ServiceState.RememberExtendsHistory | internal/refreshquota/service.go:427-438 | The bounded order is always the last 512 of the plain history. |
| Lifecycle.StepKeeps | internal/refreshquota/service.go:64-424 | Every step of every thread keeps the lifecycle invariant. |
| Lifecycle.AlwaysInv | internal/refreshquota/service.go:64-803 | The lifecycle invariant holds at every instant of every interleaving. |
| Lifecycle.GenerationSafety | internal/refreshquota/service.go:64-134 | At every instant: `running`, `active` and `activeCancel` agree and name the one run at work; `next` was announced by the current generation; recovery belongs to it or to nobody; every goroutine has the configuration installed under its generation. |
| Lifecycle.RunsStartInForce | internal/refreshquota/service.go:360-425 | A run starts with exactly the configuration in force, which is enabled and has a model and a message, and only when none is active. |
| Lifecycle.SupersededRunsAreCanceled | internal/refreshquota/service.go:79-107 | Once a caller that installed a later configuration has returned, every run of an earlier one is canceled. |
| Lifecycle.EquivalentReconfigureIsNoOp | internal/refreshquota/service.go:75-78 | Applying a configuration equivalent to the one in force changes nothing but the caller. |
| Unparsed.SupersededBy | internal/refreshquota/service.go:79-96 | Superseding puts the parsed configuration in force, or else one with the host enabled and neither schedule, model nor message, marked as failed; nothing is announced or recorded to cancel but the run at work, which stays with the memory. |
| Unparsed.NothingRunsUnparsed | internal/refreshquota/service.go:62-117 | Once a configuration that does not parse is installed, in every interleaving no goroutine ever belongs to its generation, and every manual start under it is refused as not configured. |
| Unparsed.StoppedAs | internal/refreshquota/service.go:774-791 | Stopping leaves nothing announced or recorded to cancel but the run at work, and keeps the configuration, the run and the memory. |
| Recoveries.PendingMeansAtWork | internal/refreshquota/service.go:123-255 | At every instant of every interleaving, a recovery that the service calls pending is at work, recorded, and of the configuration in force. |
| Lifecycle.StoppedOnlyDrains | internal/refreshquota/service.go:773-803 | From the moment the service is stopped no goroutine is added and the wait group never rises. |
| Lifecycle.ShutdownIsQuiet | internal/refreshquota/service.go:773-803 | From the moment the first shutdown has returned, forever: nothing is live or running, nothing is announced, the wait group is zero. |
| Cancellation.StepSpares | internal/refreshquota/service.go:64-424 | No step cancels, or puts on a list to cancel, a run or scheduler in force or its parent. |
| Cancellation.RunsAreCanceledOnlyWhenSuperseded | internal/refreshquota/service.go:79-107 | At every instant a run whose configuration is in force is not canceled, and one superseded by a returned caller is. |
| Occurrences.StepKeepsRecords | internal/refreshquota/service.go:286-438 | Every step keeps announcements, schedulers and memory in order. |
| Occurrences.AlwaysRecords | internal/refreshquota/service.go:286-438 | The records are in order at every instant of every interleaving. |
| Occurrences.AnnouncementsIncrease | internal/refreshquota/service.go:286-315 | One generation announces strictly increasing instants with pairwise distinct occurrence IDs. |
| Occurrences.DuplicateIsOlder | internal/refreshquota/service.go:394-400 | A duplicate is among the last 512 remembered, under an earlier generation. |
| Occurrences.DuplicatesComeFromEarlierConfigurations | internal/refreshquota/service.go:394-400 | At every step, an occurrence is refused as a duplicate only if an earlier configuration's scheduler had it remembered. |
| Occurrences.MemoryIsRecent | internal/refreshquota/service.go:394-438 | An occurrence is in the memory if and only if it is among the last 512 remembered. |
| Occurrences.OccurrencesStaySpaced | internal/refreshquota/service.go:394-438 | An occurrence that was started or refused as busy is remembered again only after 512 others, and under another configuration. |
| ServiceMethods.Service.constructor | internal/refreshquota/service.go:54-60 | The service starts where every execution of the lifecycle starts. |
| ServiceMethods.Service.ApplyConfigLocked | internal/refreshquota/service.go:70-97 | Refused exactly when stopped, unchanged exactly for a configuration equivalent to one in force without error; otherwise nothing at work is in force any more, whatever is not yet canceled is in the caller's hands, and the parsed configuration is in force, or one without model and message if it did not parse. |
| ServiceMethods.SupersedingHandsOverAll | internal/refreshquota/service.go:79-107 | After a new configuration, every live scheduler, run and recovery is superseded, and canceled or on the caller's list. |
| ServiceMethods.Service.StartSchedulerLocked | internal/refreshquota/service.go:268-278 | Where ApplyConfig calls it, the scheduler always starts, and it is the only live one of its generation. |
| ServiceMethods.Service.StartRecoveryLocked | internal/refreshquota/service.go:123-134 | Where ApplyConfig calls it, the recovery always starts, and it is the only one at work of its generation. |
| ServiceMethods.StillInForce | internal/refreshquota/service.go:112-117 | Until ApplyConfig has started its goroutines its configuration stays in force, and nothing of its generation was there before. |
| ServiceMethods.Service.ApplyConfig | internal/refreshquota/service.go:64-121 | Run by itself from lock to unlock: refused or unchanged as its critical section says; otherwise everything that was at work is canceled and out of force, and what is recorded as at work is exactly the scheduler and the recovery that the new configuration asks for. |
| ServiceMethods.Service.PublishNextLocked | internal/refreshquota/service.go:317-328 | The announcement is later than everything its generation announced, under another ID, and shown exactly while its configuration is in force. |
| ServiceMethods.Service.ClearNextLocked | internal/refreshquota/service.go:330-336 | When a scheduler ends, whatever is still announced is of a later generation. |
| ServiceMethods.Service.ReadConfigLocked | internal/refreshquota/service.go:360-364 | A manual start goes by the configuration installed under the generation it holds. |
| ServiceMethods.Service.RememberOccurrenceLocked | internal/refreshquota/service.go:427-438 | The append-and-evict loop leaves exactly the last 512, in order, and the set in step with them. |
| ServiceMethods.Service.StartRunLocked | internal/refreshquota/service.go:372-417 | The outcome is, of the threads and the history: not configured without model or message; stopped if not in force or disabled; a duplicate if among the last 512 remembered, and then under an earlier configuration; busy if a run is at work; otherwise started, with the configuration in force. What was started or busy is remembered as the newest. |
| ServiceMethods.StartMeans | internal/refreshquota/service.go:372-417 | The same of the fields and threads before the start. |
| ServiceMethods.StartIsExpected | internal/refreshquota/service.go:372-417 | The exact outcome of a start, from the threads and the history. |
| ServiceMethods.Service.FinishRunLocked | internal/refreshquota/service.go:728-735 | The run that finishes is the active one, so no run is active or at work any more. |
| ServiceMethods.Service.Done | internal/refreshquota/service.go:136-138 | The wait group is positive when a goroutine leaves, and then the number of goroutines left. |
| ServiceMethods.RecoveryIsRecorded | internal/refreshquota/service.go:226-230 | A recovery at work is the recorded one exactly while its configuration is in force. |
| ServiceMethods.Service.RecoveryStillCurrent | internal/refreshquota/service.go:226-230 | A recovery is told exactly whether its configuration is in force. |
| ServiceMethods.Service.SetRecoveryResultLocked | internal/refreshquota/service.go:247-255 | A recovery in force ends the pending state; one that is not changes nothing. |
| ServiceMethods.Service.EndRecoveryLocked | internal/refreshquota/service.go:139-147 | A recovery in force leaves nothing recorded; one that is not changes nothing, so it never clears another's record. |
| ServiceMethods.Service.ShutdownLocked | internal/refreshquota/service.go:774-791 | Only the first shutdown stops the service; then nothing is in force and whatever is not yet canceled is in its hands. |
| ServiceMethods.StoppingHandsOverAll | internal/refreshquota/service.go:781-801 | After the first shutdown's critical section, every live scheduler, run and recovery is out of force, and canceled or on its list. |
| Pins.PinHeaderValues | cmd/cpa-auto-refresh-quota/pin.go:128-144 | The trimmed non-empty values of every spelling of the reserved name, for some order of the keys, and whether there is one. |
| Pins.PinKeyMeans | cmd/cpa-auto-refresh-quota/pin.go:128-134 | A header key is the reserved name exactly if it is some casing of it with any white space around it. |
| Pins.OrderDoesNotMatter | cmd/cpa-auto-refresh-quota/pin.go:128-144 | The values are the same, up to order, for every order of the keys. |
| Pins.MatchIgnoresOrder | cmd/cpa-auto-refresh-quota/pin.go:78-112 | The answer of a match and the registry after it are the same for every order of the keys. |
| Pins.PicksFailClosed | cmd/cpa-auto-refresh-quota/pin.go:146-161 | A pick is passed on exactly when the reserved header is absent; it is answered with an ID exactly when its one value is a registered token for that ID and the ID is a candidate, and refused for exactly the other reasons; only such a pick selects a token, and only its own. |
| Pins.OfferedMeans | cmd/cpa-auto-refresh-quota/pin.go:154-159 | A credential is offered exactly if some candidate is its ID with any white space around it. |
| Pins.ConclusionOf | cmd/cpa-auto-refresh-quota/main.go:655-672 | A call succeeds exactly if its token was selected and the reply is a model response, which it then returns; which error it gives otherwise. |
| Pins.OwnPickIsMatched | cmd/cpa-auto-refresh-quota/main.go:638-643 | A pick with a call's headers is matched to the call's token if and only if the caller's headers hold no value under another spelling of the reserved name. |
| Pins.FirstDrawDecides | cmd/cpa-auto-refresh-quota/pin.go:37-65 | The first draw that fails or is not in use decides; with none, no token is unique. |
| Pins.AuthPinRegistry.Register | cmd/cpa-auto-refresh-quota/pin.go:37-65 | The first of four draws that is not in use, registered for the trimmed ID; every refusal leaves the registry as it was. |
| Pins.AuthPinRegistry.Finish | cmd/cpa-auto-refresh-quota/pin.go:67-76 | Returns and removes the token's entry. |
| Pins.AuthPinRegistry.MatchHeader | cmd/cpa-auto-refresh-quota/pin.go:78-112 | The two loops mark every known token as seen, and match exactly a single registered value. |
| Pins.AuthPinRegistry.MarkSelected | cmd/cpa-auto-refresh-quota/pin.go:114-126 | Marks a registered token and nothing else. |
| Pins.AuthPinRegistry.PickPinnedAuth | cmd/cpa-auto-refresh-quota/pin.go:146-161 | The candidate search computes the specified answer and registry. |
| Pins.PickMarks | cmd/cpa-auto-refresh-quota/pin.go:102-126 | A pick marks a registered token as seen exactly if the header carries it, and as selected exactly if it carries nothing else and the credential is a candidate. |
| Pins.AuthPinRegistry.ExecutePinned | cmd/cpa-auto-refresh-quota/main.go:629-673 | With the picks of the call in between: without a token, the reason Register gives; with one, success exactly if a pick carried the token alone and offered its trimmed ID and the reply is a model response, whose body is returned, and otherwise exactly the error that the reply and the picks that carried the token call for; other entries keep their IDs and no token is left. |
| PinProtocol.AlwaysInv | cmd/cpa-auto-refresh-quota/pin.go:37-161 | The protocol invariant holds at every instant of every interleaving of calls and picks. |
| PinProtocol.RegistryIsCallsInFlight | cmd/cpa-auto-refresh-quota/main.go:634-655 | The registry's entries are exactly the tokens of the calls in flight, one each, for their trimmed IDs. |
| PinProtocol.SuccessMeansSelected | cmd/cpa-auto-refresh-quota/main.go:655-672 | A call succeeds only with the body of its own reply, and only if between its registration and its end a pick carrying its token alone was decided for its ID, which was a candidate; that pick has been answered with that ID or is about to be. |
| PinProtocol.SelectedMeansReplied | cmd/cpa-auto-refresh-quota/main.go:655-672 | The converse: a call whose token was so selected succeeds if and only if its reply is a model response, which it returns. |
| PinProtocol.AnswersAreRight | cmd/cpa-auto-refresh-quota/pin.go:146-161 | No pick, however late, is answered with another ID than the one its only token was drawn for; a pick with the reserved header is never passed on. |

## Left out

- The entry points, envelopes, management routes and foreign calls of `cmd/cpa-auto-refresh-quota/main.go`: plumbing.
- `cmd/cpa-auto-refresh-quota/replace_windows.go`: system calls that cannot be seen; the compare-and-swap is the one of `replace_unix.go`.
- YAML decoding, durations, protocols, `Clone` and `Summary` of the configuration, and the request body: library calls and one-branch checks.
- Logs, error texts other than those of runs and targets, run durations, response bodies, the last report, skipped-occurrence counters and the status view.
- JSON syntax, the file size limit, path cleaning and file-name checks: their refusals are among the host's arbitrary refusals.
- Two seconds of a stable listing before a startup recovery: the recovery may start from any earlier successful listing.
- The restore of a file without any marker to go by: no caller asks for it, and only the algebra covers it.
- The steps between the check and the rename of a commit: another process that writes in that window can lose its update, as the repository documents.
- Waiting times and fairness: nothing is said about when a poll, a lock or a wait ends.
- RunLoop.RunReport.PublishActive: does not model the comparison with the service's active run, which `Lifecycle` covers by the run's number.
- Lifecycle.AlwaysInv: does not model what runs and recoveries do to files, nor the lock that serialises them; `RunLoop.Session` does, one after the other.
- PinProtocol.AlwaysInv: does not model how header values are collected, which `Pins.MatchIgnoresOrder` shows not to matter, nor a token drawn a second time.
