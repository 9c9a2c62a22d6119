# hospitusd, modelled and proved in Dafny

hospitusd manages jails and virtual machines. It keeps several small stores
that must agree (memory, SQLite, the providers, the firewall) and speaks a few
hand-written protocols. This project models the parts where that is hardest and
proves what they promise over every run, every interleaving and every input.

| file | models |
|---|---|
| `Text.dfy` | Go's `%d`, `strconv.Atoi`, trimming, instance names |
| `BackupRecords.dfy`, `Retention.dfy`, `BackupRuns.dfy`, `BackupManager.dfy` | backup records, retention, runs of all manager operations, and the manager's methods |
| `Schedules.dfy` | backup schedules and their stop channels |
| `AuthThrottle.dfy` | the per-address credential throttle, as interleaved steps |
| `LikeFilter.dfy`, `Datastore.dfy` | the instances and events tables, filters, LIKE escaping |
| `RenameSaga.dfy` | renaming at the provider, in the datastore, and the way back |
| `ImageDownload.dfy` | resumable downloads, as interleaved steps |
| `KeyManager.dfy`, `KeyLifecycle.dfy` | API keys in memory, and across memory and datastore |
| `ExecStream.dfy` | the exec stream between server and client |
| `JobList.dfy` | the merged, filtered, paged job list |
| `CloudInit.dfy` | the YAML scalar printer and the user-data document |
| `Nftables.dfy`, `Iptables.dfy` | the firewall backends' rule text, listing, removal and replacement |

Most components come in three layers. A transition system on values says what
each step does, with every outcome of the outside world (a failing command, a
server's answer, a clock reading) as a parameter. Lemmas prove what every run
keeps. Classes with the source's own loops are then proved to perform exactly
those steps. `dafny verify dfyconfig.toml` checks everything.

## What the code does not promise

Some properties one would expect do not hold of the code. Each has a lemma with
an input that shows it, and a lemma that says exactly when the property holds.

* An incremental backup whose hook or snapshot fails is recorded as incremental
  with no base (`FailedHookLeavesNoBase`); every record that has a base leads to
  a stored full backup, and every incremental without one is a failure
  (`ChainsNeverBreak`).
* A retention policy with a negative count and no positive one is not refused
  and deletes the newest backup (`NegativeCountDeletesNewest`); the newest
  survives exactly when there is no rule or a positive one, or it is too young,
  unremovable or referenced (`NewestSurvivesIff`).
* Names agree between providers and datastore once renames have settled, but a
  request that read its instance long ago can leave two rows naming each other's
  provider (`StaleRequestSwapsProviders`); the balance by provider and name is
  kept exactly when a commit finds a row of its own provider
  (`StepKeepsBalance`).
* A download with a digest that finds the final file already there reports
  success without checking it (`ExistingFileIsNotChecked`); after a success the
  file has the digest exactly when the destination was empty or held a file with
  it already (`SuccessHasDigestIff`).
* A resumed download is installed even if the server's range ended early
  (`ShortRangeIsInstalled`); the file is the whole object exactly when the server
  stood at its end when the body ended (`InstalledIsWholeIff`).
* A restart that cannot list the stored keys shuts out a key answered 201 until
  a later restart (`FailedReloadShutsOut`); otherwise it is accepted exactly
  while unexpired (`CreatedSurvives`).
* The datastore takes a handle that does not name its row
  (`MismatchedHandleIsStored`); rows and handles agree throughout a run exactly
  when each handle written names its row (`RunHandlesIff`), as all the daemon's
  own writes do (`HandlesMatchInRuns`).
* An output line that looks like an exit marker without a number ends the
  client's read with an error (`MarkerWithoutNumber`); the exit code arrives
  exactly when there is none (`ExitCodeArrivesIff`).
* A stream cut between the digits of the exit code is read as a success with the
  wrong code (`CutMarkerIsTrusted`); `CutStream` says for every cut whether the
  client reports success and whether the code is right.
* An nft rule whose target is an IPv4-mapped IPv6 address, or whose ID needs
  escaping, is not listed as it was written (`MappedAddressIsMisread`); all
  others are (`RuleReadsBackIff`).
* An iptables rule whose ID holds another instance's mark is deleted with that
  instance's rules (`ChosenIdIsMisread`); `MentionsIff` and `OtherUntouchedIff`
  say for every ID whether a rule is mistaken. Rules with the IDs the firewall
  manager makes, for port mappings and for NAT, never are
  (`GeneratedNotMistaken`, `NatNotMistaken`, `ManagerRulesUntouched`).

## Model

| member | source | states |
|---|---|---|
| `Retention.RetentionLeavesLeastClosedSet` | pkg/backup/backup.go:1049-1105 | for every policy, one newest-first pass leaves exactly the least set of records that holds every root and is closed under "base of": it holds them, it is closed, and it lies inside every such set. Roots are stated from the policy and the clock: everything if no count is set, other instances' records, unremovable ones, those made less than the minimum age ago, and those selected |
| `Retention.SelectedIff` | pkg/backup/backup.go:1074-1086 | a backup is selected exactly when fewer than KeepLast are newer, or it is the newest of its span of 3600, 86400, 604800 or 2592000 seconds and fewer later spans hold a backup than the hourly, daily, weekly or monthly count |
| `Retention.BucketIsSpan` | pkg/backup/backup.go:1115-1121 | the bucket number of a backup is k exactly when its moment lies between the two ends of span k, before the epoch included |
| `Retention.RootIff` | pkg/backup/backup.go:1049-1105 | what the pass spares in an instance is what the policy and the clock make a root |
| `Retention.PassKeepsBases` | pkg/backup/backup.go:1088-1104 | whatever the order of the list and whichever removals fail, a base recorded before the pass is still recorded if a record sent against it is |
| `Retention.PassIsLeast` | pkg/backup/backup.go:1088-1104 | with bases later in the list, the pass leaves nothing outside any closed set holding the spared and the stuck |
| `Retention.SurvivorsHaveReasons` | pkg/backup/backup.go:1088-1104 | each survivor is selected, too young, unremovable, or the base of a survivor in the table as it is afterwards |
| `Retention.NewestSelectedIff` | pkg/backup/backup.go:1074-1086 | the newest backup is selected exactly when some count is positive, and with no positive count nothing is |
| `Retention.NewestSurvives` | pkg/backup/backup.go:1049-1105 | with a positive rule the newest backup survives the pass |
| `Retention.NewestSurvivesIff` | pkg/backup/backup.go:1049-1105 | the newest backup survives exactly when the policy has no rule or a positive one, or the backup is too young, unremovable or referenced |
| `Retention.NegativeCountDeletesNewest` | pkg/backup/backup.go:1050-1054 | a policy counting -1 deletes the only backup |
| `Retention.KeepSetGrows` | pkg/backup/backup.go:1069-1133 | after others are gone, a backup that was selected and is still there is selected again |
| `Retention.RetentionIdempotent` | pkg/backup/backup.go:1049-1105 | a second pass at the same instant deletes nothing: with the same data stuck the same records remain, with none stuck not even their order changes |
| `Retention.BucketMonotone` | pkg/backup/backup.go:1115-1121 | Go's truncating bucket number never decreases with creation time, before the epoch included |
| `BackupManager.KeptAreBucketKept` | pkg/backup/backup.go:1107-1133 | the map-and-sort selection is the counting rule: first of its bucket, with fewer than count distinct newer buckets |
| `BackupManager.BackupManager.KeepByInterval` | pkg/backup/backup.go:1107-1133 | the two loops add exactly the IDs of the counting rule, for any count |
| `BackupManager.BackupManager.ApplyRetention` | pkg/backup/backup.go:1049-1105 | the method's new state in memory and datastore is the retention pass of the least-closed-set theorem, whose roots are stated in seconds and nanoseconds |
| `BackupManager.BackupManager.SelectToKeep` | pkg/backup/backup.go:1074-1086 | the loop and the four calls select exactly what the spans of an hour, a day, a week and thirty days ask for |
| `BackupManager.BackupManager.Prune` | pkg/backup/backup.go:1088-1104 | the deletion loop, with removals failing at will, is the pass over both stores |
| `BackupManager.BackupManager.BaseReference` | pkg/backup/backup.go:944-958 | finds a record exactly when some other one, in any instance, gives this one's dataset@snapshot as its base |
| `BackupManager.BackupManager.DeleteBackup` | pkg/backup/backup.go:850-893 | not found, still needed by the named dependent, put back at the end after a failed removal, or gone from memory and datastore, each exactly when it applies |
| `BackupRuns.DeleteTakesOne` | pkg/backup/backup.go:850-893 | a deletion takes away that one record from memory and rows if it is there, nothing needs it and its data could be removed, else nothing |
| `BackupManager.BackupManager.Locate` | pkg/backup/backup.go:855-868 | finds the position of an ID, or there is none |
| `BackupManager.BackupManager.FindPreviousSnapshot` | pkg/backup/backup.go:1322-1358 | the scan returns the snapshot of the newest eligible record, whatever the order of the list |
| `BackupRuns.NewestEligible` | pkg/backup/backup.go:1322-1358 | the chosen record is eligible and none eligible is newer; none is returned only if none is eligible |
| `BackupManager.BackupManager.CreateBackup` | pkg/backup/backup.go:474-581 | the record returned is the one added; it is Completed, with its location, exactly when hook, snapshot and stream worked and there is a destination, else Failed with none; an incremental past its snapshot names the newest eligible earlier record as its base, or is full if there is none; retention follows a success only |
| `BackupRuns.AttemptReports` | pkg/backup/backup.go:494-575 | the same of the record in the run model |
| `BackupManager.BackupManager.CreateSnapshot` | pkg/backup/backup.go:412-470 | the record returned is the one added, Completed exactly when hook and snapshot worked; retention follows a success if there is a configuration |
| `BackupManager.BackupManager.VerifyBackup` | pkg/backup/backup.go:738-775 | the mark is set in memory and in the datastore exactly when the backup exists and is intact |
| `BackupManager.BackupManager.Reload` | pkg/backup/backup.go:344-360 | appending the rows one by one gives the restarted state |
| `BackupManager.BackupManager.AddBackup` | pkg/backup/backup.go:1022-1047 | appends in memory and stores the row |
| `BackupRuns.StepKeepsInv` | pkg/backup/backup.go:474-581 | every operation keeps memory and datastore holding the same records and every base recorded, older and stored |
| `BackupRuns.RestartKeepsInv` | pkg/backup/backup.go:322-361 | a restart finds exactly the records and marks that were there |
| `BackupRuns.RunKeepsInv` | pkg/backup/backup.go:850-893 | the same over every run of create, snapshot, delete, retention, verify and restart |
| `BackupRuns.ChainsNeverBreak` | pkg/backup/backup.go:1322-1358 | in every run a record has a base exactly when following bases leads through older recorded streams to a stored full backup; an incremental without a base is a failure |
| `BackupRuns.RetentionInRuns` | pkg/backup/backup.go:1049-1105 | what the retention theorems ask of a table holds in every run, and the manager's retention is the table-level one |
| `BackupRuns.FailedHookLeavesNoBase` | pkg/backup/backup.go:510-527 | a run that records an incremental with no base |
| `Schedules.ParseSchedule` | pkg/backup/backup.go:997-1020 | the four words give 3600, 86400, 604800 and 2592000 seconds, a positive duration comes back as it is, and nothing else is positive |
| `Schedules.RunKeepsInv` | pkg/backup/backup.go:165-219 | over any run each channel made is in the table exactly while open, closed once otherwise, shared by nobody, with a usable configuration |
| `Schedules.ChannelsCloseOnce` | pkg/backup/backup.go:363-394 | no channel is closed twice, it is unclosed exactly while in the table, and after Stop every one ever made is closed |
| `Schedules.ScheduleTable.Configure` | pkg/backup/backup.go:165-219 | refuses without effect, else replaces: old channel closed, new one made only if persisted and scheduled |
| `Schedules.ConfigureLeaves` | pkg/backup/backup.go:165-219 | what configuring leaves, field by field: nothing changed unless acceptable; else the configuration stored, the old channel closed, a new one exactly if persisted and scheduled, no other instance affected |
| `Schedules.ScheduleTable.StopExisting` | pkg/backup/backup.go:193-197 | the close it makes is always of an open channel |
| `Schedules.ScheduleTable.RemoveConfig` | pkg/backup/backup.go:378-394 | closes and forgets the instance's channel and configuration |
| `Schedules.ScheduleTable.Stop` | pkg/backup/backup.go:363-376 | the loop closes every open channel once, in any map order |
| `Schedules.RemoveAndStopLeave` | pkg/backup/backup.go:363-394 | what removing and stopping leave, field by field |
| `AuthThrottle.FailuresBounded` | internal/api/middleware.go:618-730 | over every interleaving of keyless requests, verifications, sweeps and waiting, from any reachable moment and whatever is under way then, an address's failed verifications in T seconds number at most burst plus rate times T |
| `AuthThrottle.FailuresInFigures` | internal/api/middleware.go:786-791 | the bound in figures: three, and five more per sixty seconds |
| `AuthThrottle.LevelGrows` | internal/api/middleware.go:786-791 | what may be spent never shrinks by waiting and grows by five a minute up to three |
| `AuthThrottle.ValidKeysAreLetIn` | internal/api/middleware.go:636-641 | whatever other addresses do, an address with a token left that only presents valid keys is never turned away and spends nothing |
| `AuthThrottle.ValidKeysAreNeverLimited` | internal/api/middleware.go:636-641 | from startup on such an address is never limited |
| `AuthThrottle.EveryFailureHasItsToken` | internal/api/middleware.go:684-702 | each failed verification has a token of its own spent inside its lock window, and windows of an address do not overlap |
| `AuthThrottle.FailuresCovered` | internal/api/middleware.go:684-702 | failures since any moment, the uncharged one included, are within the bound; if nothing was under way then they are covered by the tokens spent since and left |
| `AuthThrottle.MoveKeepsAccounted` | internal/api/middleware.go:642-702 | every step of a request keeps the accounting, keyless spending outside the lock included |
| `AuthThrottle.SweepKeepsAccounted` | internal/api/middleware.go:747-775 | evicting a full limiter changes nothing anyone can spend |
| `AuthThrottle.SpendConserves` | internal/api/middleware.go:642-651 | a spend moves exactly one token from the bucket to the record, or nothing |
| `AuthThrottle.StepKeepsInv` | internal/api/middleware.go:803-822 | a lock is held by exactly the address verifying behind it, whatever addresses share a shard |
| `AuthThrottle.OneVerificationPerLock` | internal/api/middleware.go:803-822 | in every run at most one verification per lock is in progress |
| `AuthThrottle.AuthLimiters.GetOrCreate` | internal/api/middleware.go:780-795 | an unknown address gets a full limiter, a known one keeps its own |
| `AuthThrottle.AuthLimiters.Allow` | internal/api/middleware.go:642-651 | spends exactly when a token is left |
| `AuthThrottle.AuthLimiters.Exhausted` | internal/api/middleware.go:797-801 | tells whether a token is left without spending it |
| `AuthThrottle.AuthLimiters.Verify` | internal/api/middleware.go:684-702 | in tokens: the key is verified exactly when the peek or the second try finds one; a valid key with a token left is let in and costs nothing; a wrong one costs exactly one; a second try costs the token it takes; it is turned away exactly when nothing is found, or a wrong key leaves nothing to charge; other addresses are untouched |
| `AuthThrottle.AuthLimiters.Sweep` | internal/api/middleware.go:747-775 | drops exactly the limiters that have recovered to three tokens |
| `LikeFilter.EscapedIsEscapeEach` | internal/datastore/datastore.go:692-701 | the three successive replacements are one escape per character |
| `LikeFilter.ImageFilterIsSubstring` | internal/datastore/datastore.go:692-701 | LIKE with ESCAPE on the built pattern matches a text exactly when it contains the filter, up to ASCII case |
| `LikeFilter.UnescapedMatchesTooMuch` | internal/datastore/datastore.go:692-701 | without escaping a wildcard matches more than itself |
| `Datastore.RunKeepsInv` | internal/datastore/datastore.go:219-290 | in every reachable state the extracted columns equal the spec, names are unique, and every event refers to an existing row |
| `Datastore.StepKeepsInv` | internal/datastore/datastore.go:423-483 | the same, statement by statement |
| `Datastore.InsertLeaves` | internal/datastore/datastore.go:219-290 | field by field what a new row holds, and that no other row or event changes |
| `Datastore.UpdatesLeave` | internal/datastore/datastore.go:389-520 | field by field what each update writes and leaves in its row, and that no other row or event changes |
| `Datastore.DeleteLeaves` | internal/datastore/datastore.go:609-627 | the row and its events go, every other row stays and the other events keep their order |
| `Datastore.RenameCarriesOver` | internal/datastore/datastore.go:531-598 | a rename moves the row and exactly its own events and touches no other row |
| `Datastore.HandlesMatchIff` | internal/datastore/datastore.go:457-483 | each handle goes on naming its row exactly when the handle written does |
| `Datastore.RunHandlesIff` | internal/datastore/datastore.go:457-483 | over a run, handles name their rows at every moment exactly when every handle written along the way did |
| `Datastore.HandlesMatchInRuns` | internal/api/instance_handlers.go:305-320 | in every run of writes made as the daemon makes them, each row's handle names its row |
| `Datastore.MismatchedHandleIsStored` | internal/datastore/datastore.go:219-290 | the statement itself stores a handle that names another row |
| `Datastore.BuildQuery` | internal/datastore/datastore.go:635-701 | the conditions built hold of a row exactly when its spec is wanted by the filter |
| `Datastore.AddBounds` | internal/datastore/datastore.go:668-683 | the number bounds, each only if given |
| `Datastore.AddNames` | internal/datastore/datastore.go:684-701 | the name filters, each only if given |
| `Datastore.FiltersAnswerFromSpecs` | internal/datastore/datastore.go:668-701 | in every reachable state the query selects the instances whose specs match |
| `Datastore.Store.CreateInstance` | internal/datastore/datastore.go:219-290 | refuses a taken id or name without effect, else inserts the row with its columns, its backup configuration or an empty one, and the event |
| `Datastore.Store.UpdateInstanceState` | internal/datastore/datastore.go:389-420 | one row's state and an event, or nothing |
| `Datastore.Store.UpdateInstanceSpec` | internal/datastore/datastore.go:423-455 | spec and columns together, or nothing |
| `Datastore.Store.UpdateInstanceHandle` | internal/datastore/datastore.go:457-483 | one row's handle, or nothing |
| `Datastore.Store.RenameInstance` | internal/datastore/datastore.go:531-598 | all of id, name, spec, handle and events, exactly when the new name is free; else nothing |
| `Datastore.Store.DeleteInstance` | internal/datastore/datastore.go:609-627 | the row and its events, or nothing |
| `RenameSaga.StepKeepsBalance` | internal/api/checkpoint_handler.go:285-336 | each step keeps provider names plus old names of open renames equal, as multisets, to datastore ids plus their new names; by provider and name exactly when a commit finds its own provider's row |
| `RenameSaga.RunKeepsBalance` | internal/api/checkpoint_handler.go:254-346 | the same over every interleaving of requests |
| `RenameSaga.SettledStoresAgree` | internal/api/checkpoint_handler.go:285-336 | with nothing in flight and no rollback stuck, providers and datastore agree on every name |
| `RenameSaga.StaleRequestSwapsProviders` | internal/api/checkpoint_handler.go:267-313 | a run in which every request is answered 200 and two rows name each other's provider |
| `RenameSaga.RenamedHandle` | internal/api/checkpoint_handler.go:358-385 | a handle the provider lists under the new name, else the previous one under it with exactly the texts that mention the old name left out |
| `RenameSaga.Stores.HandleRename` | internal/api/checkpoint_handler.go:254-346 | a run of the saga, with its outcome from the stores and the answers: 200 exactly when the name is valid, the instance found, name and id free in the datastore and at the provider, and rename and record work, and then one held entry, the row under its new id with name, spec and handle, and its events have changed and nothing else; 400, 404 and 409 exactly when they should; any other answer leaves both stores as they were, or the undo failed |
| `RenameSaga.Stores.Lookup` | internal/api/instance_handlers.go:726-740 | by id first, then by name, and nothing only if neither is there |
| `RenameSaga.Stores.RecordOrUndo` | internal/api/checkpoint_handler.go:304-346 | 200 with the row renamed exactly when the record works and the id is free, else 500 with the datastore as it was and the provider put back or stuck |
| `RenameSaga.Stores.PutBack` | internal/api/checkpoint_handler.go:323-335 | the provider is exactly as before the rename, or the undo failed |
| `RenameSaga.RenameGives` | internal/datastore/datastore.go:531-598 | field by field what the rename transaction leaves in the row, the other rows and the events |
| `RenameSaga.Stores.ProviderRename` | internal/api/checkpoint_handler.go:299-302 | renames exactly one instance, or nothing |
| `ImageDownload.ContentRangeRoundTrip` | internal/api/image_handler.go:552-569 | a Content-Range written as in section 14.4 of RFC 9110 gives back its first position |
| `ImageDownload.UnsatisfiedRangeHasNoStart` | internal/api/image_handler.go:552-569 | the unsatisfied-range form gives none |
| `ImageDownload.RefusedResumeDropsPartial` | internal/api/image_handler.go:716-770 | a partial is gone after an answer exactly when the resume was refused or mismatched, or there was none to begin with |
| `ImageDownload.RunKeepsInv` | internal/api/image_handler.go:634-884 | over every interleaving, slots are held by the requests working behind them, the server stands where the partial file ends, and final files carry the digest of the request that installed them |
| `ImageDownload.OneWriterEver` | internal/api/image_handler.go:532-550 | in every reachable state a destination has at most one writer |
| `ImageDownload.PartialIsPrefix` | internal/api/image_handler.go:634-884 | against a server that sends one fixed object from whatever positions it announces, right or wrong, over any answers, stalls, cancellations and deletions, what is on disk is a prefix of the object |
| `ImageDownload.FinalHasItsDigest` | internal/api/image_handler.go:860-878 | whatever servers send, a destination whose requests all carry a digest has a final file with that digest |
| `ImageDownload.SuccessHasDigestIff` | internal/api/image_handler.go:648-652 | after any run over any files left behind, a request with a digest that reports success leaves a file with that digest exactly when the destination was empty or held a file with it already |
| `ImageDownload.InstalledIsWholeIff` | internal/api/image_handler.go:820-875 | against one fixed object the installed file is the whole object exactly when the server stood at its end when the body ended |
| `ImageDownload.ShortRangeIsInstalled` | internal/api/image_handler.go:755-770 | for every object and every shorter range, a run that resumes, ends early and installs the short file as a success |
| `ImageDownload.ExistingFileIsNotChecked` | internal/api/image_handler.go:634-665 | a run in which a request with any digest succeeds on a file nobody checked |
| `ImageDownload.Disk.Download` | internal/api/image_handler.go:634-884 | succeeds exactly if a file was there, or the answer was usable, the file opened, the body came to its end with the digest asked for, and the rename worked; the file is then what was resumed and the chunks joined; a refused range leaves no partial, a stall or cancellation leaves what has arrived, any other failure while reading or a wrong digest leaves none; all as moves of the interleaved model |
| `ImageDownload.Disk.Receive` | internal/api/image_handler.go:786-884 | the same from the open file on |
| `ImageDownload.Disk.ReadBody` | internal/api/image_handler.go:824-858 | chunk after chunk goes behind what was there |
| `ImageDownload.Disk.Finish` | internal/api/image_handler.go:860-884 | a complete body is installed exactly if it has the digest and the rename works |
| `KeyManager.AcceptedKeyIsCurrent` | internal/auth/auth.go:163-214 | whatever interleaves, a successful validation has an instant at which the object that matched is the one stored, the last write of its ID is its own, with a matching hash, and the expiry last put or set for the ID has not passed |
| `KeyManager.RunKeepsInv` | internal/auth/auth.go:111-143 | in every run the stored object of each ID is the one last written, with the expiry last given |
| `KeyManager.AuthManager.Put` | internal/auth/auth.go:111-143 | a new object takes the ID, all else unchanged |
| `KeyManager.AuthManager.RevokeAPIKey` | internal/auth/auth.go:246-257 | removes exactly that ID, or reports it missing |
| `KeyManager.AuthManager.SetKeyExpiry` | internal/auth/auth.go:259-273 | changes one object's expiry in place and nothing else |
| `KeyManager.AuthManager.Match` | internal/auth/auth.go:168-185 | the scan returns an object whose hash matches, or none matches |
| `KeyManager.AuthManager.Confirm` | internal/auth/auth.go:196-214 | succeeds exactly if the very object is still stored and unexpired |
| `KeyManager.AuthManager.ValidateAPIKey` | internal/auth/auth.go:163-214 | accepts a usable key, accepts nothing else, and returns a copy of the stored object |
| `KeyLifecycle.RevokedStaysOut` | internal/api/auth_key_handler.go:245-326 | a key whose revocation answered 200 is never accepted again, through store failures, crashes and restarts |
| `KeyLifecycle.CreatedSurvives` | internal/api/auth_key_handler.go:137-243 | a key whose creation answered 201 stays stored until its revocation begins, and is accepted exactly while unexpired and read by the last restart |
| `KeyLifecycle.RetryFinishesRevocation` | internal/api/auth_key_handler.go:245-326 | from any state between handlers one revocation with a working store removes the ID from both stores |
| `KeyLifecycle.FailedReloadShutsOut` | internal/api/server.go:413-435 | a restart that cannot list the rows shuts out a key answered 201 |
| `KeyLifecycle.RunKeepsInv` | internal/api/auth_key_handler.go:137-326 | over every run of handler steps, crashes and restarts, what callers were told is borne out by the stores |
| `KeyLifecycle.KeyServer.HandleCreate` | internal/api/auth_key_handler.go:137-243 | uninterrupted it is a run of those steps, with exactly what is then in memory and in the store; 201 exactly when saving works |
| `KeyLifecycle.KeyServer.HandleRevoke` | internal/api/auth_key_handler.go:245-326 | likewise, answering 200 or 404 exactly when it should; the key leaves memory whatever happens, and the store exactly when the deletion took effect |
| `ExecStream.ServeStream` | internal/api/exec_handlers.go:195-225 | however the output is cut into writes, the response is the stream of that output |
| `ExecStream.FlushingWriter.Write` | internal/api/exec_handlers.go:242-251 | passes on what got through and knows whether it ended a line |
| `ExecStream.FlushingWriter.StartLine` | internal/api/exec_handlers.go:255-259 | what follows starts a line of its own |
| `ExecStream.ReadStream` | internal/client/exec.go:87-183 | the client's result depends on the concatenated bytes alone, not on the chunks |
| `ExecStream.FeedTogether` | internal/client/exec.go:100-146 | feeding two pieces with the leftover carried is feeding them joined |
| `ExecStream.ExitCodeArrivesIff` | internal/client/exec.go:123-136 | the server's exit code arrives without error exactly when no output line is a malformed marker |
| `ExecStream.MalformedMarkerStopsClient` | internal/client/exec.go:123-136 | any line that is a marker without a number makes the client report an error and no code |
| `ExecStream.MarkerWithoutNumber` | internal/client/exec.go:123-136 | such an output |
| `ExecStream.CutStream` | internal/client/exec.go:149-183 | for every cut of the stream of plain output: success is reported exactly when at least one digit of the code is left, the code is right exactly when at most the last newline is missing, and what it is otherwise |
| `ExecStream.CutMarkerIsTrusted` | internal/client/exec.go:155-166 | a stream cut after the first digit of 137 is a success with code 1 |
| `ExecStream.PlainOutputArrives` | internal/client/exec.go:87-183 | output without marker-like lines arrives whole up to one CR per line and a final newline, with the exit code |
| `ExecStream.FailureArrives` | internal/api/exec_handlers.go:205-217 | a failure's message arrives on stderr with code -1 |
| `ExecStream.FailureArrivesIff` | internal/api/exec_handlers.go:205-217 | whatever the output and however many lines the message has, the code is -1, reported without error exactly when no line of either is a malformed marker |
| `ExecStream.LastMarkerWins` | internal/client/exec.go:123-136 | among well-formed markers the last one wins |
| `ExecStream.FeedIsOnLines` | internal/client/exec.go:110-146 | the buffered parser is a fold over the complete lines |
| `ExecStream.WireFormat` | internal/api/exec_handlers.go:205-221 | the streams letter by letter |
| `JobList.PushdownIsHarmless` | internal/api/job_handlers.go:90-128 | filtering rows in the query, overlaying live jobs and filtering again is overlaying everything and filtering once |
| `JobList.ListingIsUnique` | internal/api/job_handlers.go:97-140 | the answer does not depend on the order rows or live jobs come in |
| `JobList.SortedIsUnique` | internal/api/job_handlers.go:130-140 | newest first with ties by ID is a total order, so a sorted list is determined by its elements |
| `JobList.PagesAreTheList` | internal/api/job_handlers.go:142-151 | consecutive pages concatenate to the full list, each job once |
| `JobList.ListJobs` | internal/api/job_handlers.go:64-160 | query, merge, second filter, sort and window give the page of the one listing of everything stored and live, newest first with ties by ID, and its total; a failed query lists the live jobs |
| `JobList.TakeIn` | internal/api/job_handlers.go:97-116 | the merge loop lets later records replace earlier ones of the same ID |
| `JobList.Filtered` | internal/api/job_handlers.go:118-128 | the second filter keeps exactly the matching merged records |
| `JobList.PageParams` | internal/api/job_handlers.go:162-188 | refuses exactly non-positive limits and negative offsets; fills in the defaults, caps the limit and changes nothing else |
| `CloudInit.YamlScalar` | pkg/cloudinit/cloudinit.go:213-238 | the builder loop prints the quoted form the lemmas are about |
| `CloudInit.ScalarRoundTrip` | pkg/cloudinit/cloudinit.go:213-238 | reading the printed scalar by sections 5.7 and 7.3.1 of YAML 1.2.2 gives back the string, whatever it is; the closing quote is the first unescaped one |
| `CloudInit.NothingRaw` | pkg/cloudinit/cloudinit.go:213-238 | no control character, hence no line break, is printed raw |
| `CloudInit.DoasReplaces` | pkg/cloudinit/cloudinit.go:240-243 | each "%u" of the rule is replaced, from the left, and nothing else; what the user's name brings in is not looked at again |
| `CloudInit.RenderedLines` | pkg/cloudinit/cloudinit.go:255-308 | the lines of the rendered document are the lines the template means, whatever the values |
| `CloudInit.DocumentSkeleton` | pkg/cloudinit/cloudinit.go:255-308 | configurations of the same shape have the same labels line by line |
| `CloudInit.StructureFollowsShape` | pkg/cloudinit/cloudinit.go:154-176 | without custom user-data, two configurations of the same shape render to the same fixed text line by line, and each value reads back where it belongs |
| `CloudInit.UserDataReadsBack` | pkg/cloudinit/cloudinit.go:255-308 | without custom user-data, every way of reading the rendered lines is the same one, and following it gives back the users with all their fields, the keys, the packages and the commands |
| `CloudInit.UserDataIsRead` | pkg/cloudinit/cloudinit.go:255-308 | a reader with its own keys takes every rendered line apart and ends with the users and all their fields, the keys, the packages and the commands |
| `CloudInit.KeysAgree` | pkg/cloudinit/cloudinit.go:255-308 | the template's fixed texts are the reader's keys |
| `Nftables.RuleReadsBackIff` | pkg/firewall/nftables.go:303-335 | parsing a written rule, indented as listings are, returns the same interface, protocol, ports, target, instance and ID exactly when the target is digits and dots and the ID needs no escaping |
| `Nftables.ExposedIsListed` | pkg/firewall/manager.go:101-119 | every mapping the manager exposes for a dotted IPv4 address is listed as made |
| `Nftables.MappedAddressIsMisread` | pkg/firewall/nftables.go:89-107 | two accepted mappings that are not |
| `Nftables.DottedRuleReads` | pkg/firewall/nftables.go:96-107 | for a dotted target everything but the ID always comes back, and what of the ID does |
| `Nftables.MatchFits` | pkg/firewall/nftables.go:303-310 | whatever the text, what the backtracking matcher captures lies in the class of its group |
| `Nftables.OneComment` | pkg/firewall/nftables.go:303-310 | the opening of the comment stands nowhere else in it, so the greedy ".*" gives everything back |
| `Nftables.IdsAgreeIff` | pkg/firewall/rules.go:110-140 | generated IDs agree exactly when the mappings forward the same thing, an unset interface and one called "any" counting as the same |
| `Nftables.RuleLetterByLetter` | pkg/firewall/nftables.go:96-107 | the rule of a mapping letter by letter, with and without an interface |
| `Nftables.IdLetterByLetter` | pkg/firewall/rules.go:122-140 | its generated ID letter by letter |
| `Iptables.DeletionIsFiltering` | pkg/firewall/iptables.go:246-252 | deleting the collected numbers last to first leaves exactly the chain with those entries filtered out, all others in order |
| `Iptables.ListingPicked` | pkg/firewall/iptables.go:229-244 | the numbers read off the listing's text are the positions of the entries that mention the instance |
| `Iptables.MentionsIff` | pkg/firewall/iptables.go:233-243 | whatever its ID, a rule's text mentions an instance exactly when the rule is that instance's, or its own instance ends in "hospitus" and its ID begins with the other's name and a colon, or the other's mark stands in its ID or behind it |
| `Iptables.GeneratedNotMistaken` | pkg/firewall/rules.go:110-140 | a port mapping rule with a generated ID mentions exactly its own instance |
| `Iptables.NatNotMistaken` | pkg/firewall/manager.go:225-234 | a NAT rule with a generated ID mentions exactly its own instance, whatever its network |
| `Iptables.ManagerRulesUntouched` | pkg/firewall/iptables.go:179-202 | an instance whose rules the manager made keeps them all, in order, whatever is applied for another |
| `Iptables.ManagerIdPrefix` | pkg/firewall/rules.go:122-140 | generated IDs begin so |
| `Iptables.ChosenIdIsMisread` | pkg/firewall/iptables.go:233-243 | two rules of one instance that are taken for another's, one of them with an ID that begins as generated ones do |
| `Iptables.AppliedIsExactIff` | pkg/firewall/iptables.go:179-202 | after replacing, the instance's rules are the set's, the others' are as before, and replacing again changes nothing, each exactly when every rule of the set carries the instance's mark |
| `Iptables.OtherUntouchedIff` | pkg/firewall/iptables.go:179-202 | whatever else is in the chain, another instance's rules are as before exactly when none of them is mistaken |
| `Iptables.SetHits` | pkg/firewall/iptables.go:179-202 | rules that carry the set's instance count as that instance's |
| `Iptables.NatTable.CollectNumbers` | pkg/firewall/iptables.go:229-244 | the first loop collects what the listing says |
| `Iptables.NatTable.DeleteNumbers` | pkg/firewall/iptables.go:246-252 | the second loop, cut short by any failing command, has deleted only the instance's entries |
| `Iptables.NatTable.RemoveFromChain` | pkg/firewall/iptables.go:220-255 | succeeds exactly if every command works, filters the chain then, and never loses another's entry |
| `Iptables.NatTable.RemoveAllRules` | pkg/firewall/iptables.go:204-218 | both chains, likewise |
| `Iptables.NatTable.AddAll` | pkg/firewall/iptables.go:186-199 | appends the rules in order, or stops at the first refused |
| `Iptables.NatTable.ApplyRules` | pkg/firewall/iptables.go:179-202 | succeeds exactly if every rule is valid and every command works; both chains are then the others' rules followed by the set's; on any outcome the others' rules stay |

## Left out

- Interleaved backup operations: each manager operation is one step; the lock is not held from choosing a base to recording the backup, nor across a claimed delete.
- Backup assumptions: IDs and snapshot names are fresh, creation times differ, and writing a record works; data removal may fail at will.
- Schedules: which instants a schedule fires at, and restarting schedules at startup.
- BackupManager.BackupManager.VerifyBackup: what makes a stream intact is a parameter.
- Backup rows that cannot be decoded at startup: the source skips them with a warning.
- Restoring backups, compression, hooks and the send pipeline: foreign processes, seen only as succeeding or failing.
- AuthThrottle: the limiter's floating point and nanosecond arithmetic are exact reals; looking up a limiter and asking it are one step.
- Datastore: label filters, encryption of columns, JSON coding (columns are kept decoded), migrations, and the limit SQLite puts on LIKE pattern length.
- RenameSaga: the answers 500 and 501 for a failed name check, a missing provider or one that cannot rename, which change nothing; creation and deletion of instances while renames are in flight, and what else a provider does with a name.
- ImageDownload: URL checks, progress output and speed; removing a file is assumed to work; SHA-256 is a parameter; responses are taken after redirects and decoding.
- KeyManager and KeyLifecycle: bcrypt is a parameter; keys from the configuration file come back at every restart by design; handlers of the two-store lifecycle run one at a time.
- ExecStream: WebSocket and terminal sessions; the client's text is one character per byte.
- JobList: the job manager itself and what jobs do.
- CloudInit: the meta-data and network-config templates, which print the same scalars, and custom user-data, which is appended as it is by design; readers of YAML 1.1 that break lines at other characters than those of YAML 1.2.2.
- CloudInit.YamlScalar: strings are sequences of Unicode scalar values, so Go's replacement of invalid UTF-8 does not occur.
- Nftables: which characters beyond ASCII count as printable is a parameter; net.ParseIP is not modelled, so the lemmas hold for every non-empty target text.
- Iptables: each rule is listed on one line with its comment printed as given, what iptables prints in front of the comment has no colon after an "s", and a space follows the comment; another program changing the chain between listing and deleting.
- The PF backend, the TCP proxy, audit logs, metrics, routing, orchestration and manifests.
- Text: white space and letter case beyond ASCII.
