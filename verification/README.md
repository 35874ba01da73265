# ImageSilo, modelled and proved in Dafny

ImageSilo keeps the same facts in three places: database rows, files on disk, and in-memory
indexes that serve every read. Uploads, imports, deletes, conversions, alias changes, index
rebuilds and a daily cleaner change them concurrently. This project models that protocol as a
state machine over the atomic steps of any number of jobs and proves that the three places agree,
in every run, crashes included. Around it stand models of the lock protocol, of the session and
API token indexes, of the migration image listing, of the files a request leaves behind, and of
the byte, path and counting algorithms.

`dafny verify dfyconfig.toml` checks the whole project.

## Modules

| files | subject |
|---|---|
| `Base`, `Runs` | options, results, bytes, instants in nanoseconds and whole seconds; runs of a state machine |
| `Delivery`, `Loader` | the delivery index object, its value (`View`), and what a rebuild computes from rows and files |
| `Protocol` | the three-store machine: state, jobs, phases, steps, runs |
| `Locking`, `Invariant`, `Frames`, `*Steps`, `Lifecycle` | the inductive invariant; one module of small lemmas for each kind of job |
| `Agreement`, `Effects`, `Removals`, `SweptFiles`, `Overtaking` | what every run guarantees; what each operation has achieved; removed files stay removed; exactly when the daily cleaner takes a served file away, and a run in which it does |
| `Requests`, `ImageRequests`, `StoreRequests` | what each operation does, from its first step to its last, when nobody else holds a lock |
| `KeyedLocker`, `LockOrder` | the per-key lock with disposable entries; the order in which all services take locks |
| `SessionIndex`, `SessionProtocol`, `SessionSteps`, `SessionSafety`, `SessionRequests` | sessions |
| `TokenIndex`, `TokenProtocol`, `TokenSteps`, `TokenSafety`, `TokenRequests` | API tokens |
| `MigrationPaging`, `MigrationCache`, `MigrationProtocol`, `MigrationPaths`, `MigrationTree` | the migration listing, its cache, its paths, and directory pruning |
| `AliasPath`, `AliasSpelling`, `Utf8` | canonical alias paths; their spelling byte by byte, segments, reserved paths; UTF-8 and white space by code points |
| `GifPreflight`, `ImageInspection` | frame counting and the pixel budget |
| `StoredFiles` | temporary, image and thumbnail files of uploads, imports and conversions |
| `Maintenance` | inspection and daily cleanup as loops over listings |
| `LoginLimiter` | the bounded login limiter |

Objects that the program changes in place are classes whose methods are proved against functions
on values (`Delivery.Index` against `Delivery.View`, and so on). Each such method runs under one
mutex, so the protocols use the functions as atomic steps.

## The three-store protocol

A state holds the image and alias rows, the image and thumbnail files with their times, the
delivery index, every running job with its phase and locks, and the clock. One event is one lock,
one repository call, one index call, or one file operation of one job:

| job | steps, in order | source |
|---|---|---|
| upload, import | `CommitFile`, `PutThumb`, locks, `InsertRows`, `ShowTarget`, `ShowAlias`; on failure `Abandon`, `RemoveFile`, `RemoveThumb` | internal/image/upload.go:201-266, internal/importer/service.go:216-251 |
| delete | locks, `DeleteRow` (alias rows cascade), `HideTarget`, `LeaveShared`, `DeleteFile`, `DeleteThumb` | internal/image/upload.go:487-509 |
| visibility | locks, `UpdateRow`, `UpdateTarget` | internal/image/upload.go:519-529 |
| conversion | image lock, `ReadRow`, `WriteFile`, barrier, `ReplaceRow`, `ReplaceTarget`, `LeaveSharedAfter`, thumbnail and old file; or `GiveUp`, `RemoveNewFile` | internal/image/upload.go:540-690 |
| alias | locks, `StoreAlias`, `PublishAlias`; `FindAlias`, locks, `DeleteAlias`, `HideAlias` | internal/alias/service.go:46-57, internal/alias/service.go:126-140 |
| rebuild | exclusive barrier, `ReadRows`, `CheckFile` once per row, `ReadAliases`, `Swap` | internal/indexstate/rebuilder.go:58-90 |
| daily cleaner | no lock: `ScanRows`, `ListImages`, `ListThumbs`, then `SweepFile` and `SweepThumb` | internal/maintenance/service.go:207-256, internal/maintenance/service.go:293-319 |

`Restart` is a crash between any two steps followed by a start that loads the index. The
assumptions are those of the design: fresh UUIDs; a repository call that fails has not committed;
files change only through this program; and an upload, import or conversion commits its row less
than the safety age (24 hours) after writing its file. Times are compared in whole seconds,
because a row keeps seconds while a freshly published target keeps nanoseconds.

The request modules read the machines from the other end: whenever no lock is held, the steps of
one request can be taken one after the other, and rows, files, thumbnails and index are then
exactly what the request asked for, in literal terms, with every lock given back. So the guards
admit what they should, and no step does more or less than its part.

Three findings, each with a concrete run and the exact condition:

- A served target can name a file the daily cleaner has removed: the cleaner may read the rows
  after a deletion's row write and remove the file before the deletion's index write
  (`Overtaking.CleanerOvertakesDeletion`). One step of any job makes a served file disappear if and
  only if it is the cleaner removing an existing file of an image whose row is already deleted, or
  replaced away from that file, while its target is not yet (`SweptFiles.SweepLosesExactly`,
  `SweptFiles.LosesExactly`; in terms of the jobs at work, `SweptFiles.ExposedByJob`). So throughout
  a run every served target names its file if and only if no step of the run is such a removal
  (`SweptFiles.EveryRunServes`), and in a quiet state every target does
  (`SweptFiles.QuietTargetsNameTheirFiles`).
- A session or token can authenticate for less than a second after its row expired, because the
  row keeps whole seconds (`SessionSafety.EntryOutlivesRow`, `TokenSafety.LastSecondHappens`). In a
  quiet state what authenticates is what is stored and unexpired, unless the entry expires later
  within the current second, and then never (`SessionSafety.EveryQuietState`,
  `TokenSafety.EveryQuietState`); expiries on whole seconds have no such second
  (`SessionSafety.WholeSecondsAreExact`, `TokenSafety.WholeSecondsAreExact`).
- A conversion leaves one empty temporary file exactly when the engine has no thumbnails
  (`StoredFiles.ConvertToWebP`).

## Model

| member | source | states |
|---|---|---|
| `Delivery.Index.RemoveImage` | internal/delivery/index.go:57-66 | deleting while ranging over the aliases removes the target and exactly the aliases of that image |
| `Delivery.Index.UpdateVisibility` | internal/delivery/index.go:32-41 | only a known image's target changes, only in its visibility; the result says whether it was known |
| `Delivery.Index.AddAlias` | internal/delivery/index.go:43-49 | an alias is only added for a known image |
| `Delivery.RemovedImageIsUnreachable` | internal/delivery/index.go:57-66 | after a deletion no alias names the image and every other alias resolves as before |
| `Loader.Build` | internal/delivery/loader.go:25-131 | succeeds exactly on rows with 32-byte hashes and canonical aliases of known images; then it serves exactly the rows whose file has the recorded size, field by field, and the aliases of those images except root aliases; the id lists name the loaded, missing and wrong-sized rows in row order |
| `Loader.LoadTargets` | internal/delivery/loader.go:36-74 | the row loop serves the rows whose file has the recorded size and lists the missing and the wrong-sized ones in row order |
| `Loader.LoadAliases` | internal/delivery/loader.go:88-126 | the alias loop skips root aliases and aliases of unavailable images, fails on any other defect, and the counts add up |
| `Loader.LoadAlias` | internal/delivery/loader.go:103-124 | the answer for one alias row in full: a root alias is skipped, another must be its own canonical form and name a known image, and is served exactly when its image is |
| `Agreement.RunKept` | internal/image/upload.go:245-264 | the invariant holds after every run of any number of jobs |
| `Agreement.EveryQuietStateAgrees` | internal/indexstate/rebuilder.go:58-70 | in every run, whenever no job stands between its row write and its index write, the index equals, in whole seconds, what a rebuild would load |
| `Agreement.QuietIndexEqualsRebuild` | internal/delivery/loader.go:25-131 | the same from the invariant: targets and aliases, both directions |
| `Agreement.ImageAgrees` | internal/image/upload.go:519-529 | image by image, unless its lock holder is between its writes, the served target is the one a rebuild would serve |
| `Agreement.AliasAgrees` | internal/alias/service.go:46-57 | path by path, with nothing pending on it, an alias is served exactly when it is stored, for the stored image |
| `Agreement.StoredAliasIsServed` | internal/alias/service.go:126-140 | a stored alias on a quiet path resolves to a target that agrees with the row of its image |
| `Agreement.EveryAliasResolves` | internal/delivery/index.go:75-86 | in every quiet state of every run a path resolves exactly when it is stored, to a target that says what its image's row says |
| `Agreement.EveryLoadSucceeds` | internal/delivery/loader.go:103-123 | in every reachable state the rows and aliases are such that a load meets no error |
| `Agreement.RowsNameTheirFiles` | internal/image/upload.go:192-252 | in every reachable state, after any crash, every row names an existing file of its recorded size and no two rows share a file |
| `Agreement.TargetsNameTheirFiles` | internal/image/upload.go:487-507 | without the daily cleaner every served target names an existing file of its size |
| `Effects.PublishEffect` | internal/image/upload.go:249-264 | in every state of the invariant, an upload that has added its target is stored and served as its row says |
| `Effects.ImportEffect` | internal/importer/service.go:239-250 | after an import its image and its alias are both stored and served |
| `Effects.DeleteEffect` | internal/image/upload.go:491-497 | after a deletion's index write no row, target, alias row or served alias of the image is left |
| `Removals.DeletedFileStaysGone` | internal/image/upload.go:499-503 | the file of a deleted image is gone after its removal and in every continuation, and no other file or thumbnail with it |
| `Removals.DeletedThumbStaysGone` | internal/image/upload.go:504-507 | the thumbnail of a deleted image is gone after its removal and in every continuation |
| `Removals.OldContentStaysGone` | internal/image/upload.go:684-687 | the old file of a converted image is gone after its removal and in every continuation, and is not the new one |
| `Removals.NewContentStaysGone` | internal/image/upload.go:622-627 | the new file of a conversion that failed is gone after its removal and in every continuation, and is not the old one |
| `Removals.RolledBackFileStaysGone` | internal/image/upload.go:211-213 | the file of an upload or import that was rolled back is gone after its removal and in every continuation |
| `Removals.RolledBackThumbStaysGone` | internal/importer/service.go:220-227 | the same for its thumbnail |
| `ImageRequests.PublishAlone` | internal/image/upload.go:201-266 | an upload adds exactly one row, file and target, field by field, and the thumbnail if one was made; an import also its alias, stored and served |
| `ImageRequests.DeleteAlone` | internal/image/upload.go:487-509 | a deletion takes away exactly the row, its alias rows, the target, its aliases, the file and the thumbnail |
| `ImageRequests.VisibilityAlone` | internal/image/upload.go:519-529 | a visibility change sets one field of the row and one of the target |
| `ImageRequests.ConvertAlone` | internal/image/upload.go:540-690 | a conversion replaces row, target and file by those of the new content, and the thumbnail by a new one or none; aliases stay |
| `ImageRequests.AddAliasAlone` | internal/alias/service.go:46-57 | a new alias is stored and served, and nothing else changes |
| `ImageRequests.DropAliasAlone` | internal/alias/service.go:126-140 | a deleted alias is neither stored nor served, and nothing else changes |
| `ImageRequests.FailedPublishAlone` | internal/image/upload.go:210-218 | an upload or import whose row is refused leaves rows, files, thumbnails and index as they were |
| `ImageRequests.FailedConvertAlone` | internal/image/upload.go:622-656 | a conversion whose row is refused leaves rows, files, thumbnails and index as they were |
| `StoreRequests.RebuildAlone` | internal/indexstate/rebuilder.go:58-90 | a rebuild, checking one file after the other in any order, serves exactly what rows and files say and changes nothing else |
| `StoreRequests.DailyAlone` | internal/maintenance/service.go:207-256 | the cleaner removes exactly the files no row names and the thumbnails of no row that are a day old |
| `Effects.VisibilityEffect` | internal/image/upload.go:524-528 | row and target have the requested visibility and agree |
| `Effects.ConvertEffect` | internal/image/upload.go:649-669 | row and target show the new content, with the visibility and creation time the row had |
| `Effects.AliasEffect` | internal/alias/service.go:50-56 | the alias is stored for the image and served, and its image is served |
| `Effects.DropEffect` | internal/alias/service.go:132-139 | the alias is neither stored nor served |
| `SweptFiles.SweepLosesExactly` | internal/maintenance/service.go:217-230 | removing a marked file takes it from a served target if and only if that image's row is deleted, or replaced away from the file, and its target not yet |
| `SweptFiles.LosesExactly` | internal/maintenance/service.go:207-230 | among all steps of all jobs, rebuilds and crashes included, exactly those removals of an existing file make a served target lose its file |
| `SweptFiles.EveryRunServes` | internal/image/upload.go:487-507 | throughout a run every served target names its file if and only if no step of the run is such a removal |
| `SweptFiles.ExposedByJob` | internal/image/upload.go:648-670 | that condition holds exactly while a deletion or a conversion of the image stands between its row write and its index write |
| `SweptFiles.QuietTargetsNameTheirFiles` | internal/image/upload.go:490-507 | in every quiet state every served target names a file of its size, cleaner or not |
| `Overtaking.CleanerOvertakesDeletion` | internal/maintenance/service.go:207-230 | a concrete run in which a served target has lost its file to the cleaner |
| `Agreement.SweptFileIsNeverNeeded` | internal/maintenance/service.go:293-319 | a file the cleaner removes is named by no row, then or after any continuation |
| `Agreement.SweptThumbIsNeverNeeded` | internal/maintenance/service.go:231-244 | a thumbnail the cleaner removes belongs to no image row, then or after any continuation |
| `RemoveSteps.IndexKept` | internal/image/upload.go:491-497 | the cascade of alias rows without path locks and the index removal that follows keep the invariant |
| `RebuildSteps.SwapKept` | internal/indexstate/rebuilder.go:58-70 | an index computed row by row under the exclusive barrier is complete when it is swapped in |
| `ConvertSteps.Kept` | internal/image/upload.go:648-690 | replacing content by a new key under the image lock keeps the invariant |
| `PublishSteps.AbandonKept` | internal/image/upload.go:211-218 | a failed upload or import may release its locks and roll back |
| `Lifecycle.RestartKept` | internal/delivery/loader.go:133-140 | a crash at any point and the load at the next start restore the invariant |
| `KeyedLocker.Locker.Enter` | internal/indexbarrier/keyed_lock.go:16-27 | the entry of the key is found or made, and counts one more reference |
| `KeyedLocker.Locker.Leave` | internal/indexbarrier/keyed_lock.go:30-38 | one reference less; an entry without references leaves the table |
| `KeyedLocker.Guarantees` | internal/indexbarrier/keyed_lock.go:16-39 | in every run: one holder per key, one entry per key, an entry in the table exactly when its count equals a positive number of users, and an empty table when there are none |
| `KeyedLocker.RefinesMutexPerKey` | internal/indexbarrier/keyed_lock.go:16-39 | although entries are deleted and made again, every step is a step of one plain mutex per key |
| `KeyedLocker.WaitsOnlyForHolder` | internal/indexbarrier/keyed_lock.go:29 | a waiting thread can take its key exactly when nobody holds it |
| `LockOrder.NeverStuck` | internal/indexbarrier/barrier.go:17-42 | in every reachable state with a caller present some caller can step, even while a waiting rebuild keeps new readers out |
| `LockOrder.EveryoneCanFinish` | internal/importer/service.go:235-238 | from every reachable state there is a schedule in which all present callers finish |
| `LockOrder.EveryScheduleEnds` | internal/indexbarrier/barrier.go:23-42 | no schedule of the present callers is longer than the steps ahead of them |
| `LockOrder.Exclusion` | internal/indexbarrier/barrier.go:39-42 | a rebuild inside the barrier is alone, and no lock has two holders |
| `LockOrder.InsideHolds` | internal/indexbarrier/barrier.go:23-42 | inside the barrier each kind of caller holds exactly its locks: image, path, credentials or mutations, and its side of the barrier |
| `LockOrder.ArrivalGetsIn` | internal/indexbarrier/barrier.go:17-42 | from every reachable state a new caller of any kind can get inside |
| `LockOrder.LeavingReleases` | internal/importer/service.go:235-238 | a caller that leaves gives back every lock it held and no other |
| `LockOrder.GivingUpReleases` | internal/image/upload.go:648-653 | so does one that fails before the barrier |
| `SessionIndex.Index.UpdateAdmin` | internal/auth/session_index.go:45-55 | rewriting while ranging changes exactly the entries of the administrator, in name and email only |
| `SessionIndex.Index.RemoveAllExcept` | internal/auth/session_index.go:35-43 | only the kept session remains, if it was there |
| `SessionIndex.Index.PurgeExpired` | internal/auth/session_index.go:57-68 | exactly the expired entries go, and their number is returned |
| `SessionIndex.PurgeIsUnseen` | internal/auth/session_index.go:57-85 | purging changes no later authentication |
| `SessionSteps.StepKept` | internal/auth/service.go:51-110 | every step of logins, logouts, profile and password changes, cleanups, loads and crashes keeps the invariant |
| `SessionSafety.EveryQuietState` | internal/auth/service.go:121-129 | in every run, in a quiet state, a session authenticates exactly when it is stored and unexpired in whole seconds, unless its entry expires later within the current second; when both hold it carries the administrator's current name and email |
| `SessionSafety.QuietSessionsExactly` | internal/auth/session_index.go:77-85 | the same from the invariant |
| `SessionSafety.WholeSecondsAreExact` | internal/auth/service.go:87-101 | a session made on a whole second authenticates exactly when it is stored and unexpired |
| `SessionSafety.QuietSessionsAgree` | internal/auth/service.go:40-49 | rows and index entries unexpired in whole seconds correspond one to one, field by field |
| `SessionSafety.ChangeRevokesOthers` | internal/auth/service.go:202-207 | once a password change has reached the index, rows and index hold at most the kept session |
| `SessionSafety.OlderSessionsWereKept` | internal/auth/service.go:183-207 | in every run, a session that authenticates although verified against an older password is the one every later change kept |
| `SessionSafety.LoggedOutForever` | internal/auth/service.go:147-159 | after a logout the token authenticates in no continuation |
| `SessionSafety.EverySessionEnds` | internal/auth/service.go:87-101 | a day after any reachable state no session present in it authenticates |
| `SessionRequests.LoginAlone` | internal/auth/service.go:51-110 | a login adds exactly one row and one entry, for a day, with the administrator's stored profile |
| `SessionRequests.UpdateProfileAlone` | internal/auth/service.go:112-133 | a profile update changes the stored profile and name and email of the administrator's entries, nothing else |
| `SessionRequests.ChangePasswordAlone` | internal/auth/service.go:172-209 | a password change leaves exactly the kept session, in rows and index, if it was there |
| `SessionRequests.LogoutAlone` | internal/auth/service.go:147-159 | a logout removes exactly one row and one entry |
| `SessionRequests.CleanupAlone` | internal/auth/service.go:211-220 | a cleanup removes exactly the expired rows, by the second, and the expired entries, by the nanosecond |
| `SessionRequests.LoadAlone` | internal/auth/service.go:40-49 | a load replaces the index by exactly the rows unexpired in whole seconds, field by field |
| `SessionSafety.EntryOutlivesRow` | internal/auth/service.go:211-220 | a concrete quiet state in which a session authenticates in its last second although its row is gone |
| `TokenIndex.NormalizeScopes` | internal/apitoken/service.go:129-146 | fails exactly on an empty list or on a name other than the four valid ones; otherwise returns the scopes with the given names, sorted and without repetition |
| `TokenIndex.SortedListIsUnique` | internal/apitoken/service.go:129-146 | the normalised list depends only on which scopes were requested |
| `TokenIndex.Index.PurgeExpired` | internal/apitoken/index.go:45-56 | exactly the expired tokens go, and their number is returned |
| `TokenSteps.StepKept` | internal/apitoken/service.go:73-84 | every step of creations, revocations, cleanups, loads and crashes keeps the invariant |
| `TokenSafety.QuietTokensAgree` | internal/apitoken/service.go:107-123 | in a quiet state a token authenticates exactly when its row is active and unexpired, unless it is in the second in which the row expired; it says what the row says |
| `TokenSafety.EveryQuietState` | internal/apitoken/service.go:33-42 | the same for every run |
| `TokenSafety.WholeSecondsAreExact` | internal/apitoken/index.go:35-43 | a token without expiry or with one on a whole second authenticates exactly when its row is active and unexpired |
| `TokenSafety.OnlyStoredTokens` | internal/apitoken/service.go:107-117 | whatever authenticates is a stored token with that hash |
| `TokenSafety.NeverAgain` | internal/apitoken/service.go:95-105 | after a revocation the token authenticates in no continuation |
| `TokenSafety.EveryTokenEnds` | internal/apitoken/index.go:35-43 | from the expiry it was created with, no token authenticates, whatever has happened |
| `TokenRequests.CreateAlone` | internal/apitoken/service.go:44-85 | a creation adds exactly one active row and one entry, with the requested prefix, scopes and expiry |
| `TokenRequests.RevokeAlone` | internal/apitoken/service.go:91-105 | a revocation clears the flag of exactly one row and removes exactly its entry |
| `TokenRequests.CleanupAlone` | internal/apitoken/service.go:119-123 | a cleanup removes exactly the expired entries and no row |
| `TokenRequests.LoadAlone` | internal/apitoken/service.go:33-42 | a load can always list the table, and the index is then exactly the active rows unexpired in whole seconds, field by field |
| `TokenSafety.LastSecondHappens` | internal/apitoken/repository.go:24-27 | a concrete quiet state in which a token authenticates although its row has expired |
| `MigrationPaging.Search` | internal/migrationimage/service.go:106-161 | refuses exactly the invalid filters; otherwise lists, newest first and then by path, the items behind the cursor that lie between the size bounds, have the requested type, and hold the query in path or relative path up to ASCII case; at most the limit (24 unless 1 to 100), and a next cursor exactly when more follow |
| `MigrationPaging.MatchesExactly` | internal/migrationimage/service.go:128-145 | what it means for an item to meet a filter, field by field |
| `MigrationPaging.BeforeExactly` | internal/migrationimage/service.go:314-322 | behind a cursor means older, or as old with a path that comes later byte by byte |
| `MigrationPaging.FindAfter` | internal/migrationimage/service.go:314-322 | the rest of a list from the first item behind the cursor |
| `MigrationPaging.PageFacts` | internal/migrationimage/service.go:128-157 | a page is sorted and holds exactly the matching items behind its cursor and not behind the next one |
| `MigrationPaging.OneSnapshotExactly` | internal/migrationimage/service.go:147-161 | following the cursor over one snapshot returns exactly the filtered sorted list |
| `MigrationPaging.UnchangedItemsOnce` | internal/migrationimage/service.go:122-157 | with a different snapshot for every page, each matching item present throughout is returned exactly once |
| `MigrationPaging.NothingTwice` | internal/migrationimage/service.go:252-257 | whatever happens between pages, the concatenated pages are strictly sorted |
| `MigrationPaging.FollowingEnds` | internal/migrationimage/service.go:151-157 | following the cursor over one snapshot ends |
| `MigrationCache.Cache.RemoveCachedPath` | internal/migrationimage/service.go:263-281 | exactly the items of the path leave the snapshot, and the stored bytes fall by their sizes |
| `MigrationProtocol.ServedSnapshotIsCurrent` | internal/migrationimage/service.go:196-228 | in every run a snapshot served from the cache was scanned less than 30 minutes ago, lists all listed files that were there when its scan began and still are, and nothing that is gone but what a delete is about to forget |
| `MigrationProtocol.DeletedImageIsNeverListed` | internal/migrationimage/service.go:163-221 | after a successful delete no snapshot ever lists the image, whatever scans overlap it |
| `MigrationProtocol.BytesStayAbove` | internal/platform/storage/filesystem.go:71-121 | in every run the stored bytes are at least the listed sizes, and the listing is sorted |
| `MigrationProtocol.DeletesKeepUnlisted` | internal/migrationimage/service.go:263-281 | a delete changes neither the bytes beyond the listed sizes nor any other item |
| `MigrationProtocol.ScansAreComplete` | internal/platform/storage/filesystem.go:71-121 | a published scan accounts for the regular files it met, each once, among them all that were there when it began: it lists exactly the listed ones, its bytes are the sizes of all, and it counts the others as skipped |
| `MigrationProtocol.OneScanAtATime` | internal/migrationimage/service.go:196-221 | scans exclude each other and every delete at work |
| `MigrationProtocol.RemovedFileStaysGone` | internal/migrationimage/service.go:163-194 | a delete removes one listed file and no other, for good, and reports whether it was there |
| `MigrationProtocol.ForcedLoadAlone` | internal/migrationimage/service.go:196-221 | when no mutex is held a forced load lists exactly the listed files there are |
| `MigrationProtocol.CopiedImageIsListed` | internal/migrationimage/service.go:230-261 | a supported image copied into the directory is on the next forced listing |
| `MigrationProtocol.DeleteAlone` | internal/migrationimage/service.go:163-194 | when the mutation mutex is free a delete removes one listed file and its cached item |
| `MigrationProtocol.CacheIsForgotten` | internal/migrationimage/service.go:223-228 | after 30 minutes, and after a crash, nothing is served from the cache |
| `MigrationPaths.LaterChecksNeverReject` | internal/migrationimage/service.go:298-312 | every accepted alias path passes the later path checks, down to the storage layer |
| `MigrationPaths.ListedPathNamesItsFile` | internal/migrationimage/service.go:334-346 | a listed path sent back in a cursor or a delete is accepted unchanged and names the scanned file |
| `MigrationPaths.ListedPathsDistinct` | internal/migrationimage/service.go:237-251 | distinct scanned files have distinct listed paths |
| `MigrationTree.MigrationRoot.ValidateDeletePath` | internal/platform/storage/filesystem.go:173-193 | accepts exactly the root itself and the paths of valid components, directories free of links down to an existing entry; names a malformed path and a missing component as such |
| `MigrationTree.MigrationRoot.Remove` | internal/platform/storage/filesystem.go:123-171 | deletes the file of the given path and the chain of ancestors that became empty, reports their number, leaves everything else and a tree, and changes nothing on an error |
| `MigrationTree.EmptiedIsMaximal` | internal/platform/storage/filesystem.go:144-170 | without failures the removed directories are exactly the ancestors that held nothing else |
| `MigrationTree.PathByComponents` | internal/platform/storage/filesystem.go:174-177 | the checks on the whole path hold exactly when every component is a UTF-8 name without separator, backslash or NUL, and neither empty nor made of dots |
| `AliasPath.NormalizeIdempotent` | internal/delivery/path.go:20-53 | normalising twice is normalising once |
| `AliasPath.CanonicalKeepsMeaning` | internal/delivery/path.go:27-42 | a path and its canonical form decode alike |
| `AliasPath.AtMostTwoSpellings` | internal/delivery/path.go:46-48 | an accepted spelling is the canonical path or its decoded form |
| `AliasPath.DecodedSpellingAccepted` | internal/delivery/path.go:20-53 | the decoded form is an accepted spelling exactly when it is short enough and does not end in white space |
| `AliasPath.AcceptedPathIsValidDownstream` | internal/delivery/path.go:31-51 | an accepted path decodes to a valid relative path without backslash or NUL |
| `AliasSpelling.NormalizesExactly` | internal/delivery/path.go:20-53 | acceptance and result in full: the raw path is valid UTF-8 of at most 2048 bytes, does not end in white space, and holds no backslash, question mark, number sign, NUL, tab or line break; it and the result decode to the same rooted path of good segments; and the result is spelled canonically |
| `AliasSpelling.SpellingIsUnique` | internal/delivery/path.go:42-48 | two canonical spellings of one path are equal: only letters, digits and a fixed set of marks stand for themselves, all else as upper-case triplets |
| `AliasSpelling.UnescapeDecodes` | internal/delivery/path.go:27-30 | decoding is defined byte by byte: a triplet of two hexadecimal digits is one byte, any other byte itself, and a percent sign otherwise is an error |
| `AliasSpelling.ReservedExactly` | internal/delivery/path.go:55-78 | exactly the listed routes, everything below them, and paths of one UUID are reserved |
| `Utf8.ValidExactly` | internal/delivery/path.go:21-23 | a byte string is accepted as UTF-8 exactly when it encodes a sequence of Unicode scalar values |
| `Utf8.EndsInSpaceExactly` | internal/delivery/path.go:24-26 | it ends in white space exactly when its last code point is white space |
| `GifPreflight.PreflightFrames` | internal/platform/processor/gif_preflight.go:10-67 | the reader loop computes the recursive preflight, on every byte string |
| `GifPreflight.Reader.SkipSubBlocks` | internal/platform/processor/gif_preflight.go:69-82 | consumes exactly one chain of sub-blocks, or fails on an incomplete one |
| `GifPreflight.PrintedGifIsCounted` | internal/platform/processor/gif_preflight.go:17-66 | every printed GIF, its colour tables being 2 to 256 colours as the packed byte announces, followed by anything, is counted, refused for too many images, or refused for none |
| `GifPreflight.AcceptedInputIsGif` | internal/platform/processor/gif_preflight.go:17-66 | every accepted input is a printed GIF with the returned number of images, followed by something |
| `GifPreflight.TooManyExactly` | internal/platform/processor/gif_preflight.go:46-49 | refused for its size exactly when a descriptor beyond a positive limit is read |
| `ImageInspection.InspectFile` | internal/platform/processor/inspect.go:19-91 | accepts exactly the well-formed images within the limits; refuses for size exactly beyond the byte limit, as unsupported exactly without a known signature, and as over budget only for too many pixels or frames |
| `ImageInspection.LateCheckIsIdle` | internal/platform/processor/inspect.go:74-79 | after the earlier checks the last product neither overflows nor exceeds the limit |
| `ImageInspection.CapIsBudget` | internal/platform/processor/inspect.go:61-64 | the derived frame cap is at least one and refuses exactly the counts beyond the pixel limit |
| `ImageInspection.PreflightUnderLimit` | internal/platform/processor/gif_preflight.go:46-49 | a frame limit refuses the counts above it and changes no other count |
| `ImageInspection.DetectedBySignature` | internal/platform/processor/inspect.go:93-106 | a format is detected exactly by its signature; the signatures exclude each other |
| `StoredFiles.Upload` | internal/image/upload.go:80-96 | succeeds exactly when every call does; a failure leaves all three directories as they were, a success adds one image, its thumbnail if one was made, and no temporary; each error (busy, empty, too large, refused by inspection) has its exact condition |
| `StoredFiles.Import` | internal/importer/service.go:53-69 | the same for an import, which stores its source unchanged |
| `StoredFiles.Stage` | internal/image/upload.go:114-147 | stages exactly inputs of one byte up to the limit (20 MiB by default), and leaves nothing otherwise; an empty and a too large input have their own errors |
| `StoredFiles.PrepareImage` | internal/image/upload.go:294-387 | leaves at most the selected image and a thumbnail beside the source, or nothing on failure |
| `StoredFiles.CommitFiles` | internal/image/upload.go:206-252 | the deferred rollback undoes every rename when the row is not inserted |
| `StoredFiles.ConvertToWebP` | internal/image/upload.go:566-688 | a failure changes neither images nor thumbnails, a success replaces one file; busy and refused have their exact conditions; one temporary stays behind exactly when the engine has no thumbnails |
| `Maintenance.Scan` | internal/maintenance/service.go:293-346 | the counts are those of the missing rows and orphaned files, and the first 100 missing ids are reported |
| `Maintenance.Daily` | internal/maintenance/service.go:207-256 | removes exactly the regular files that no row names and that are at least the requested age old (24 hours if none is requested), except where removal fails; what stays is unchanged, and the adjusted report is what a new inspection of the result would say |
| `LoginLimiter.Limiter.Allow` | internal/httpapi/login_limiter.go:26-49 | entries and reply are those of the bounded reference function |
| `LoginLimiter.SpaceIsBounded` | internal/httpapi/login_limiter.go:29-38 | no run of calls holds more than 4096 entries |
| `LoginLimiter.RetryIsExact` | internal/httpapi/login_limiter.go:43-46 | a refused key is told the time at which it is accepted again, and no earlier one |
| `LoginLimiter.FullExactly` | internal/httpapi/login_limiter.go:29-38 | a key is refused for lack of room exactly when it is new and 4096 entries are unexpired |
| `LoginLimiter.ResetStartsOver` | internal/httpapi/login_limiter.go:51-55 | after a reset a key has its whole limit again |
| `LoginLimiter.AgreesUntilFull` | internal/httpapi/login_limiter.go:29-48 | with a nondecreasing clock the replies are those of an unbounded limiter until one is refused for lack of room |
| `LoginLimiter.AtMostTwicePerWindow` | internal/httpapi/login_limiter.go:39-48 | without Reset one key passes at most twice the limit in any interval of one window |
| `LoginLimiter.TwiceIsReached` | internal/httpapi/login_limiter.go:39-48 | for every positive limit and window that bound is reached |

## Left out

- HTTP handlers, cookies, JSON, configuration, logging, the web interface and application start-up other than loading the index.
- SQLite: each repository call or transaction is one step that commits or changes nothing. List queries, statistics and the keyset paging of images and aliases in SQL are not modelled; the migration listing shows the same paging in memory.
- Image codecs, thumbnail scaling, hashing, token generation and Argon2: outcomes, or fresh and injective values. A stored hash stands for its hexadecimal ETag.
- Power loss and fsync, permissions, symbolic links outside the migration tree, and errors of the operating system when a file's size is read.
- Changes to the data directory by other programs. Rebuilds then drop images and aliases, and a later conversion restores the image but not its aliases (internal/delivery/loader.go:114-117, internal/image/upload.go:661).
- `Protocol`: finishing a job releases its remaining locks at once; `LockOrder` releases them one by one. The time a conversion records and the rename of its file are one step. The pre-check of an import for an existing alias is left out, since the unique path decides.
- `Protocol`: regular files only, and one cutoff time per cleaner; temporary files are in `StoredFiles` and `Maintenance`.
- Session, token and delivery indexes are separate machines, although one rebuild replaces all three under the same exclusive barrier.
- `AliasPath`, `MigrationPaths`: white space at the ends of a request's path is trimmed before the model; letter case in list queries is folded for ASCII letters only.
- `MigrationPaging`: the base64 and JSON coding of cursors and the cancellation of a request; `MigrationPaths` shows that the path in a cursor is accepted.
- `MigrationProtocol`: files copied in from outside have names never used before; a scan error ends a load without publishing.
- `MigrationTree`: an ancestor that vanishes during the cleanup; deletes hold the mutation mutex.
- `TokenIndex`: scopes are compared by their rank among the four valid names instead of as strings.
- `StoredFiles`: a removal that fails; the daily cleaner removes what is then left.
- Memory statistics, application settings, first-run setup and the delivery gate.
