# Arma 3 server manager: mod provisioning, modelled in Dafny

This project models the part of the Arma 3 server manager that provisions Steam
Workshop mods, together with a few small decision and validation pieces around it:

- **SteamCmdServiceImpl** (`steamcmd_service.dfy`, proved against `steamcmd_spec.dfy`).
  It installs or updates a mod through a single-worker FIFO executor. It runs SteamCMD
  with a bounded retry loop, copies the mod's `.bikey` files into the server's `keys`
  directory, links the mod into the server directory, deletes mods, and reconciles
  the mod database with the workshop directory on disk. The file system is a map from
  path strings to nodes (`files.dfy`) and the mod database is a map from id to record
  (`entities.dfy`). SteamCMD runs, I/O failures, name normalisation and the workshop
  service's name and size lookups are oracles held in an `Environment` value. The
  executor's queue is a field, and the worker is the method `RunNextTask`.
- **WorkshopApiMetadataProvider** (`workshop_metadata.dfy`). It builds the Web API
  request, finds the `publishedfiledetails` node of the answer, and turns every
  failure into null.
- **UpdateModsCronJob** (`update_mods_job.dfy`). This is the credential gate of the
  nightly update.
- **ServerInstallationService** (`server_installation.dfy`). It looks up an
  installation record, or reports NotFound.
- **ServerStatus.from** (`server_status.dfy`).
- **ServerDto** (`server_dto.dfy`). Its bean-validation constraints are one validator.

`lang.dfy` holds the Java value semantics the model uses:
- null as `Option`;
- `long` and `int` ranges;
- `Long.toString` and `Long.parseLong`;
- `String.isBlank`.

Four behaviours of the code are easy to misread, and the model follows the code:

- **Retries.** The retry loop logs "attempt {} / 10" (`SteamCmdServiceImpl.java:150`), but
  its guard `attempts++ <= 10` (`:148`) lets 11 runs through
  (`SteamCmdSpec.AllFailuresMakeElevenRuns`).
- **Install task.** A failed download is logged as an error (`:51-53`). The task then
  carries on and saves the record with `installed = true`, a new time stamp and a new
  size (`:58-62`) (`SteamCmdService.SteamCmdServiceImpl.RunTask`).
- **Refresh scan.** A directory name that is not a number is not skipped. The
  `NumberFormatException` handler returns null (`:96-97`), and the null stays in the id
  set, so the refresh also creates and installs a record with a null id
  (`SteamCmdSpec.ScanKeepsNull`). The model takes `modDb.find`, `new WorkshopMod`,
  `getModName` and `getFileSize` to accept that null id (see "Left out").
- **Mod status.** Mod records carry only an `installed` flag. There is no installation
  status for mods, and `installed` is never tied to a status.

## Model

Paths are relative to the repository root.

| member | source | states |
|---|---|---|
| Lang.LongToString | src/main/java/cz/forgottenempire/arma3servergui/services/impl/SteamCmdServiceImpl.java:143 | a long is written as a non-empty, separator-free string that starts with '-' exactly when the long is negative |
| Lang.ParseLong | src/main/java/cz/forgottenempire/arma3servergui/services/impl/SteamCmdServiceImpl.java:95 | Long.parseLong accepts only an optional sign followed by digits, and a '-' sign never gives a positive value |
| Lang.LongRoundTrip | backend/src/main/java/cz/forgottenempire/servermanager/workshop/metadata/WorkshopApiMetadataProvider.java:59 | parsing the decimal text of any long gives that long back |
| Lang.IdRoundTrip | src/main/java/cz/forgottenempire/arma3servergui/services/impl/SteamCmdServiceImpl.java:92-100 | a mod id written into a directory name parses back to the same id; a null id is written "null", which parses back to null |
| Lang.IdStringInjective | src/main/java/cz/forgottenempire/arma3servergui/services/impl/SteamCmdServiceImpl.java:73 | two ids written the same way are equal |
| Lang.IdString | src/main/java/cz/forgottenempire/arma3servergui/services/impl/SteamCmdServiceImpl.java:143 | `"..." + modId` for a boxed Long is a non-empty, separator-free string ("null" for a null id) |
| Lang.JavaStringInjective | src/main/java/cz/forgottenempire/arma3servergui/services/impl/SteamCmdServiceImpl.java:141 | string concatenation writes null as "null" and any other string unchanged, so two nullable strings are written alike exactly when they are equal or are null and "null" |
| Lang.ParseLongRejects | src/main/java/cz/forgottenempire/arma3servergui/services/impl/SteamCmdServiceImpl.java:94-98 | a name with a non-digit after the first character is not a long (NumberFormatException) |
| Files.FileName | src/main/java/cz/forgottenempire/arma3servergui/services/impl/SteamCmdServiceImpl.java:205 | File.getName is a single path component |
| Files.FileNameIsSuffix | src/main/java/cz/forgottenempire/arma3servergui/services/impl/SteamCmdServiceImpl.java:205 | File.getName is the part of the path after its last separator: a suffix that is the whole path or is preceded by a separator |
| Files.JoinParts | src/main/java/cz/forgottenempire/arma3servergui/services/impl/SteamCmdServiceImpl.java:212-218 | Join: `dir + File.separatorChar + name` reads back as the directory, one separator and the name |
| Files.JoinIsChild | src/main/java/cz/forgottenempire/arma3servergui/services/impl/SteamCmdServiceImpl.java:73 | a single-component name joined to a directory is an entry of that directory, and the entry's name is that name |
| Files.TreeDeleted | src/main/java/cz/forgottenempire/arma3servergui/services/impl/SteamCmdServiceImpl.java:75 | deleteDirectory removes the directory and everything below it, and keeps every other path unchanged |
| Files.LinkCreatedIdempotent | src/main/java/cz/forgottenempire/arma3servergui/services/impl/SteamCmdServiceImpl.java:173-176 | LinkCreated: creating the link a second time changes nothing; a link made at a free path points at the target and touches nothing else |
| Files.LinkDeletedMissing | src/main/java/cz/forgottenempire/arma3servergui/services/impl/SteamCmdServiceImpl.java:186-190 | LinkDeleted: deleting a missing link leaves the file system unchanged and raises nothing |
| Files.LinkDeletedAfterCreated | src/main/java/cz/forgottenempire/arma3servergui/services/impl/SteamCmdServiceImpl.java:183-191 | a link created at a free path is removed again by a delete that does not fail |
| Entities.NewWorkshopMod | src/main/java/cz/forgottenempire/arma3servergui/services/impl/SteamCmdServiceImpl.java:116-117 | a new record has the given id and name, is not installed, and has no time stamp or size |
| SteamCmdSpec.ModDirectoryIsEntry | src/main/java/cz/forgottenempire/arma3servergui/services/impl/SteamCmdServiceImpl.java:212-218 | DownloadPath and ModDirectory: every mod directory is an entry of the download path, and its name parses back to the mod's id |
| SteamCmdSpec.ModDirectoryInjective | src/main/java/cz/forgottenempire/arma3servergui/services/impl/SteamCmdServiceImpl.java:73 | different ids get different mod directories |
| SteamCmdSpec.LinkIsNotKeyTarget | src/main/java/cz/forgottenempire/arma3servergui/services/impl/SteamCmdServiceImpl.java:168 | LinkPath and KeyTarget: a mod link, named by one path component, never collides with a copied key file |
| SteamCmdSpec.DownloadArgsLayout | src/main/java/cz/forgottenempire/arma3servergui/services/impl/SteamCmdServiceImpl.java:132-144 | DownloadArgs: the argument list has 7 entries with a guard code and 6 without, in the fixed order: no prompt, no shutdown on failure, guard code, login, install dir, workshop item, quit |
| SteamCmdSpec.GuardPrefixOnlyOnGuardCode | src/main/java/cz/forgottenempire/arma3servergui/services/impl/SteamCmdServiceImpl.java:136-139 | Render: an argument is written with the `+set_steam_guard_code ` prefix exactly when it is the guard-code argument |
| SteamCmdSpec.GuardEntryIffToken | src/main/java/cz/forgottenempire/arma3servergui/services/impl/SteamCmdServiceImpl.java:136-139 | a guard-code entry appears in the list exactly when the token is non-null and not blank |
| SteamCmdSpec.LoginDeterminesCredentials | src/main/java/cz/forgottenempire/arma3servergui/services/impl/SteamCmdServiceImpl.java:141 | the rendered login argument gives back the username and password texts when the username has no space; a null credential and the string "null" are the only pair it cannot tell apart |
| SteamCmdSpec.ItemArgNamesMod | src/main/java/cz/forgottenempire/arma3servergui/services/impl/SteamCmdServiceImpl.java:143 | the workshop item argument carries an id that reads back as the requested mod id, null included |
| SteamCmdSpec.AttemptsFrom | src/main/java/cz/forgottenempire/arma3servergui/services/impl/SteamCmdServiceImpl.java:146-155 | the loop makes at least one run and at most 11 |
| SteamCmdSpec.AttemptsFromStopAtFirstSuccess | src/main/java/cz/forgottenempire/arma3servergui/services/impl/SteamCmdServiceImpl.java:148-155 | from any count of failed runs on, the loop stops right after the first success, and stops before the bound only after a success |
| SteamCmdSpec.AttemptsStopAtFirstSuccess | src/main/java/cz/forgottenempire/arma3servergui/services/impl/SteamCmdServiceImpl.java:146-155 | Attempts: SteamCMD runs 1 to 11 times; every run but the last failed, and fewer than 11 runs means the last one succeeded |
| SteamCmdSpec.Runs | src/main/java/cz/forgottenempire/arma3servergui/services/impl/SteamCmdServiceImpl.java:146-155 | n runs of the loop log n argument lists |
| SteamCmdSpec.RunsAreArgs | src/main/java/cz/forgottenempire/arma3servergui/services/impl/SteamCmdServiceImpl.java:151 | every run of the loop is made with the same argument list |
| SteamCmdSpec.AllFailuresMakeElevenRuns | src/main/java/cz/forgottenempire/arma3servergui/services/impl/SteamCmdServiceImpl.java:147-148 | when every run fails or throws, SteamCMD is run exactly 11 times and the download fails |
| SteamCmdSpec.DownloadSucceedsIffSomeRunSucceeds | src/main/java/cz/forgottenempire/arma3servergui/services/impl/SteamCmdServiceImpl.java:146-163 | downloadMod returns true exactly when one of the first 11 runs succeeds |
| SteamCmdSpec.BiKeyFiles | src/main/java/cz/forgottenempire/arma3servergui/services/impl/SteamCmdServiceImpl.java:201 | the key files found are files that exist |
| SteamCmdSpec.WithFiles | src/main/java/cz/forgottenempire/arma3servergui/services/impl/SteamCmdServiceImpl.java:205 | the copied targets become regular files, and every other path keeps what it had |
| SteamCmdSpec.CopiedTargets | src/main/java/cz/forgottenempire/arma3servergui/services/impl/SteamCmdServiceImpl.java:201-209 | a copy never goes through onto a path that is a directory |
| SteamCmdSpec.CopiedTargetsStep | src/main/java/cz/forgottenempire/arma3servergui/services/impl/SteamCmdServiceImpl.java:201-209 | copying one more key adds its target exactly when that copy goes through (the target is not a directory and the copy does not throw) |
| SteamCmdSpec.KeysCopiedEffect | src/main/java/cz/forgottenempire/arma3servergui/services/impl/SteamCmdServiceImpl.java:193-209 | nothing changes when the mod directory is not a directory; otherwise every key whose copy goes through lands in keys/ as a regular file; directories stay directories; every changed or new path is a key target |
| SteamCmdSpec.InstalledRecord | src/main/java/cz/forgottenempire/arma3servergui/services/impl/SteamCmdServiceImpl.java:58-61 | the final record keeps the id and name, is installed, and has the new time stamp and size |
| SteamCmdSpec.DownloadedEffect | src/main/java/cz/forgottenempire/arma3servergui/services/impl/SteamCmdServiceImpl.java:151 | one SteamCMD run replaces what is at or below the mod directory with its output there, and keeps every path outside it |
| SteamCmdSpec.AfterRunsStayInDirectory | src/main/java/cz/forgottenempire/arma3servergui/services/impl/SteamCmdServiceImpl.java:146-155 | all the runs of a download change nothing outside the mod directory |
| SteamCmdSpec.InstallLeavesLink | src/main/java/cz/forgottenempire/arma3servergui/services/impl/SteamCmdServiceImpl.java:166-181 | after an install task the link points at the mod directory, whether it was made now or was already that link |
| SteamCmdSpec.DownloadLeavesKey | src/main/java/cz/forgottenempire/arma3servergui/services/impl/SteamCmdServiceImpl.java:196-205 | a key file that a run leaves in the mod directory is found by the key scan of the tree after it, and its copy goes through |
| SteamCmdSpec.KeyCopied | src/main/java/cz/forgottenempire/arma3servergui/services/impl/SteamCmdServiceImpl.java:201-205 | a key found below the mod directory whose copy goes through lands in keys/ as a regular file |
| SteamCmdSpec.InstallKeepsKeyTarget | src/main/java/cz/forgottenempire/arma3servergui/services/impl/SteamCmdServiceImpl.java:55-56 | the link made after the key copy never replaces a copied key |
| SteamCmdSpec.DownloadedKeysAreCopied | src/main/java/cz/forgottenempire/arma3servergui/services/impl/SteamCmdServiceImpl.java:51-56 | a key that the last SteamCMD run of the download leaves in the mod directory is in keys/ after the install task, also on a first install where the directory did not exist before |
| SteamCmdSpec.AfterTasksStep | src/main/java/cz/forgottenempire/arma3servergui/services/impl/SteamCmdServiceImpl.java:40-41 | AfterTasks: running one more queued task applies that task's runs, downloads, key copy and link on top of the earlier tasks' effects |
| SteamCmdSpec.TasksRunSteamCmd | src/main/java/cz/forgottenempire/arma3servergui/services/impl/SteamCmdServiceImpl.java:40-66 | draining k tasks adds between k and 11k SteamCMD runs, keeps the earlier ones, and makes every new run with the download arguments of one of the tasks |
| SteamCmdSpec.DbAfterTasksStep | src/main/java/cz/forgottenempire/arma3servergui/services/impl/SteamCmdServiceImpl.java:40-41 | DbAfterTasks: running one more queued task adds that task's installed record on top of the earlier ones |
| SteamCmdSpec.SavesAfterTasksStep | src/main/java/cz/forgottenempire/arma3servergui/services/impl/SteamCmdServiceImpl.java:45-66 | SavesAfterTasks: running one more queued task appends its record saved as not installed, then its installed record, to the save log |
| SteamCmdSpec.SavesAfterTasksAt | src/main/java/cz/forgottenempire/arma3servergui/services/impl/SteamCmdServiceImpl.java:45-66 | the drained tasks make two saves each, in queue order and never interleaved: the i-th task's not-installed record at position 2i and its installed record right after |
| SteamCmdSpec.TasksAddTheirIds | src/main/java/cz/forgottenempire/arma3servergui/services/impl/SteamCmdServiceImpl.java:58-62 | after the tasks ran, records are still keyed by id, and the ids are the stored ones plus the tasks' ids |
| SteamCmdSpec.TasksInstallTheirIds | src/main/java/cz/forgottenempire/arma3servergui/services/impl/SteamCmdServiceImpl.java:58-62 | after the tasks ran, each task's record is installed, whatever its download did |
| SteamCmdSpec.TasksLeaveOtherIds | src/main/java/cz/forgottenempire/arma3servergui/services/impl/SteamCmdServiceImpl.java:44-66 | records whose id no task carries are left as they were |
| SteamCmdSpec.ModDeletion | src/main/java/cz/forgottenempire/arma3servergui/services/impl/SteamCmdServiceImpl.java:72-84 | deleteMod succeeds exactly when neither the directory delete nor the record removal throws; a failed directory delete touches nothing; otherwise the directory tree is gone; the record goes exactly on success |
| SteamCmdSpec.DeletionWithoutFaults | src/main/java/cz/forgottenempire/arma3servergui/services/impl/SteamCmdServiceImpl.java:72-84 | when the directory and link deletes do not throw, the directory and the link are gone (also when either was missing) and other paths are kept; the result is success and the record is removed exactly when modDb.remove does not throw, and a throwing remove keeps the record but not the files |
| SteamCmdSpec.ScanFindsModDirectory | src/main/java/cz/forgottenempire/arma3servergui/services/impl/SteamCmdServiceImpl.java:92-100 | ScannedIds: every mod directory on disk is found by the refresh scan under its id |
| SteamCmdSpec.ScanKeepsNull | src/main/java/cz/forgottenempire/arma3servergui/services/impl/SteamCmdServiceImpl.java:94-100 | an entry whose name Long.parseLong rejects puts null into the scanned ids instead of being skipped |
| SteamCmdSpec.Reconciled | src/main/java/cz/forgottenempire/arma3servergui/services/impl/SteamCmdServiceImpl.java:103-119 | after a refresh, records exist for the stored ids plus the scanned ids; none is installed; stored records are kept with installed=false; missing ones are new records named by the workshop service |
| SteamCmdSpec.StoredOrNew | src/main/java/cz/forgottenempire/arma3servergui/services/impl/SteamCmdServiceImpl.java:113-119 | the record found or created for an id carries that id |
| SteamCmdSpec.ReconciledFromPasses | src/main/java/cz/forgottenempire/arma3servergui/services/impl/SteamCmdServiceImpl.java:103-122 | the reset pass followed by the find-or-create pass leaves exactly the reconciled records |
| SteamCmdSpec.ReconcileIdempotent | src/main/java/cz/forgottenempire/arma3servergui/services/impl/SteamCmdServiceImpl.java:87-129 | refreshing twice against the same disk leaves the same records as refreshing once |
| SteamCmdSpec.SubmittedFromLog | src/main/java/cz/forgottenempire/arma3servergui/services/impl/SteamCmdServiceImpl.java:112-122 | tasks submitted along a duplicate-free log of ids that covers the id set form one task per id, each with the stored record |
| SteamCmdSpec.SubmitProgressStep | src/main/java/cz/forgottenempire/arma3servergui/services/impl/SteamCmdServiceImpl.java:112-122 | handling one more id (find, create if missing, submit) keeps the submitting loop's progress |
| SteamCmdSpec.SubmitProgressDone | src/main/java/cz/forgottenempire/arma3servergui/services/impl/SteamCmdServiceImpl.java:112-122 | when every id has been handled, the records cover the stored ids plus the id set, and exactly one install was submitted per id |
| SteamCmdSpec.TasksCoveringRecordsInstallThem | src/main/java/cz/forgottenempire/arma3servergui/services/impl/SteamCmdServiceImpl.java:44-66 | one task per stored id, run in any order, leaves every record installed and adds no other |
| SteamCmdSpec.RefreshedIdsEndInstalled | src/main/java/cz/forgottenempire/arma3servergui/services/impl/SteamCmdServiceImpl.java:87-129 | once the tasks a refresh submitted have run, exactly the scanned and stored ids have records, and all of them are installed |
| SteamCmdService.SteamCmdServiceImpl.constructor | src/main/java/cz/forgottenempire/arma3servergui/services/impl/SteamCmdServiceImpl.java:30-41 | the service starts with the given paths and records, an empty queue and no SteamCMD runs |
| SteamCmdService.SteamCmdServiceImpl.Save | src/main/java/cz/forgottenempire/arma3servergui/services/impl/SteamCmdServiceImpl.java:47 | modDb.save stores the record under its own id, keeps records keyed by id, and logs the save |
| SteamCmdService.SteamCmdServiceImpl.Execute | src/main/java/cz/forgottenempire/arma3servergui/services/impl/SteamCmdServiceImpl.java:151 | one SteamCMD run is recorded with its arguments, and its outcome is the oracle's answer for that run |
| SteamCmdService.SteamCmdServiceImpl.InstallOrUpdateMod | src/main/java/cz/forgottenempire/arma3servergui/services/impl/SteamCmdServiceImpl.java:44-69 | installOrUpdateMod appends exactly one task to the back of the queue, with no deduplication, and always returns true |
| SteamCmdService.SteamCmdServiceImpl.RunNextTask | src/main/java/cz/forgottenempire/arma3servergui/services/impl/SteamCmdServiceImpl.java:40-66 | the worker takes the oldest task; its SteamCMD runs are appended, the files are those of the download followed by the key copy and the link (InstallFs over AfterRuns), and the record is saved not installed, then installed |
| SteamCmdService.SteamCmdServiceImpl.RunTask | src/main/java/cz/forgottenempire/arma3servergui/services/impl/SteamCmdServiceImpl.java:45-66 | the task saves the record as not installed, runs the download's SteamCMD runs and applies their output, copies the keys from the tree the download left and links, then saves the record installed with the new stamp and size, whatever the download returned |
| SteamCmdService.SteamCmdServiceImpl.InstallFiles | src/main/java/cz/forgottenempire/arma3servergui/services/impl/SteamCmdServiceImpl.java:51-56 | download, key copy and link creation run in that order on the tree each step leaves; the key copy and the link happen even when the download failed |
| SteamCmdService.SteamCmdServiceImpl.RunQueuedTasks | src/main/java/cz/forgottenempire/arma3servergui/services/impl/SteamCmdServiceImpl.java:40-66 | draining the queue runs every task once, in submission order; the records are DbAfterTasks, the save log grows by SavesAfterTasks (two saves per task, in order), and the files and SteamCMD runs are AfterTasks of the ones before |
| SteamCmdService.SteamCmdServiceImpl.DeleteMod | src/main/java/cz/forgottenempire/arma3servergui/services/impl/SteamCmdServiceImpl.java:72-84 | deleteMod's result, files and records are those of ModDeletion |
| SteamCmdService.SteamCmdServiceImpl.RefreshMods | src/main/java/cz/forgottenempire/arma3servergui/services/impl/SteamCmdServiceImpl.java:87-129 | refreshMods fails exactly when listing the download directory throws, and then changes nothing; otherwise it leaves the reconciled records, keeps queued tasks, and submits one install per scanned or stored id |
| SteamCmdService.SteamCmdServiceImpl.ResetAll | src/main/java/cz/forgottenempire/arma3servergui/services/impl/SteamCmdServiceImpl.java:103-109 | every stored record is saved again with installed=false, and the stored ids are returned |
| SteamCmdService.SteamCmdServiceImpl.SubmitAll | src/main/java/cz/forgottenempire/arma3servergui/services/impl/SteamCmdServiceImpl.java:112-122 | each id gets its stored record or a new one, and exactly one install task per id is appended to the queue |
| SteamCmdService.SteamCmdServiceImpl.SubmitOne | src/main/java/cz/forgottenempire/arma3servergui/services/impl/SteamCmdServiceImpl.java:113-121 | a missing record is created with the workshop service's name, saved (one entry in the save log) and then submitted; an existing record is submitted as stored and nothing is saved |
| SteamCmdService.SteamCmdServiceImpl.DownloadMod | src/main/java/cz/forgottenempire/arma3servergui/services/impl/SteamCmdServiceImpl.java:131-164 | downloadMod runs SteamCMD Attempts times with DownloadArgs, leaves the runs' output in the mod directory in run order, and returns whether the last run succeeded |
| SteamCmdService.SteamCmdServiceImpl.RunRetrying | src/main/java/cz/forgottenempire/arma3servergui/services/impl/SteamCmdServiceImpl.java:146-163 | the retry loop runs the same arguments as many times as Attempts says, and its result is the last run's success |
| SteamCmdService.SteamCmdServiceImpl.CreateSymlink | src/main/java/cz/forgottenempire/arma3servergui/services/impl/SteamCmdServiceImpl.java:166-181 | the link to the mod directory is made only when nothing is at the link path and the call does not fail; errors are swallowed |
| SteamCmdService.SteamCmdServiceImpl.DeleteSymlink | src/main/java/cz/forgottenempire/arma3servergui/services/impl/SteamCmdServiceImpl.java:183-191 | the link path is removed unless it is missing, fails or is a non-empty directory; errors are swallowed |
| SteamCmdService.SteamCmdServiceImpl.CopyBiKeys | src/main/java/cz/forgottenempire/arma3servergui/services/impl/SteamCmdServiceImpl.java:193-210 | the file system after copyBiKeys is KeysCopied of the one before |
| SteamCmdService.SteamCmdServiceImpl.CopyKeys | src/main/java/cz/forgottenempire/arma3servergui/services/impl/SteamCmdServiceImpl.java:201-209 | the copy loop leaves a regular file at the target of every key whose copy goes through, whatever happened to the others, and changes nothing else |
| WorkshopMetadata.FindValueSpec | backend/src/main/java/cz/forgottenempire/servermanager/workshop/metadata/WorkshopApiMetadataProvider.java:44 | FindValue: findValue is non-null exactly when the field name occurs at some depth, and its result is the value of such a field |
| WorkshopMetadata.FindInFieldsSpec | backend/src/main/java/cz/forgottenempire/servermanager/workshop/metadata/WorkshopApiMetadataProvider.java:44 | the same for the fields of an object |
| WorkshopMetadata.FindInItemsSpec | backend/src/main/java/cz/forgottenempire/servermanager/workshop/metadata/WorkshopApiMetadataProvider.java:44 | the same for the elements of an array |
| WorkshopMetadata.FirstFieldWins | backend/src/main/java/cz/forgottenempire/servermanager/workshop/metadata/WorkshopApiMetadataProvider.java:44 | in document order, the first field with the name is the one found when no earlier field's value contains the name |
| WorkshopMetadata.First | backend/src/main/java/cz/forgottenempire/servermanager/workshop/metadata/WorkshopApiMetadataProvider.java:56 | a form entry is found exactly when one with that name was added, and the result is the value of such an entry |
| WorkshopMetadata.RequestBodyNamesMod | backend/src/main/java/cz/forgottenempire/servermanager/workshop/metadata/WorkshopApiMetadataProvider.java:55-61 | PrepareRequestBody: the body has exactly three entries, key, itemcount and publishedfileids[0] in that order, holding the API key, "1" and a decimal id that reads back as the mod id |
| WorkshopMetadata.RequestBodyInjective | backend/src/main/java/cz/forgottenempire/servermanager/workshop/metadata/WorkshopApiMetadataProvider.java:59 | different mods never produce the same request body |
| WorkshopMetadata.RequestIsFormEncoded | backend/src/main/java/cz/forgottenempire/servermanager/workshop/metadata/WorkshopApiMetadataProvider.java:51-67 | PrepareRequest, PrepareRequestHeaders: the request's only header is Content-Type application/x-www-form-urlencoded, and its body carries the provider's key and an item id that reads back as the mod id |
| WorkshopMetadata.ModInfoIsDetails | backend/src/main/java/cz/forgottenempire/servermanager/workshop/metadata/WorkshopApiMetadataProvider.java:40-49 | GetModInfoFromSteamApi: the fetch is non-null exactly when the post answered with a body that parses to a tree holding publishedfiledetails, and then it is that field's value; every failure gives null and nothing is thrown |
| WorkshopMetadata.FailedPostGivesNull | backend/src/main/java/cz/forgottenempire/servermanager/workshop/metadata/WorkshopApiMetadataProvider.java:45-48 | an exception from the post gives null |
| WorkshopMetadata.CreatePropertyProvider | backend/src/main/java/cz/forgottenempire/servermanager/workshop/metadata/WorkshopApiMetadataProvider.java:31-38 | the provider is null exactly when the fetched node is null, and otherwise wraps that same node |
| WorkshopMetadata.EmptyDetailsStillGiveProvider | backend/src/main/java/cz/forgottenempire/servermanager/workshop/metadata/WorkshopApiMetadataProvider.java:44 | an answer whose details array is empty still yields a provider over the empty array |
| UpdateModsJob.RefreshMods | src/main/java/cz/forgottenempire/arma3servergui/cronjobs/UpdateModsCronJob.java:22-32 | CanUpdate: updateAllMods is called at most once; it is called exactly when the default account's record exists with a non-null username and password, and then with that record |
| UpdateModsJob.OnlyDefaultAccountMatters | src/main/java/cz/forgottenempire/arma3servergui/cronjobs/UpdateModsCronJob.java:25 | only the record under the default account id decides the outcome |
| UpdateModsJob.EmptyCredentialsPass | src/main/java/cz/forgottenempire/arma3servergui/cronjobs/UpdateModsCronJob.java:26-28 | empty username and password strings pass the gate, with or without a guard token |
| UpdateModsJob.MissingCredentialBlocks | src/main/java/cz/forgottenempire/arma3servergui/cronjobs/UpdateModsCronJob.java:26-31 | a null username or password prevents the update |
| ServerInstallations.GetServerInstallation | backend/src/main/java/cz/forgottenempire/servermanager/installation/ServerInstallationService.java:28-31 | the stored record is returned exactly when the type is present; otherwise NotFound names the type, and null is never returned |
| ServerInstallations.IsServerInstalled | backend/src/main/java/cz/forgottenempire/servermanager/installation/ServerInstallationService.java:33-35 | true iff the stored status is FINISHED; a missing type propagates NotFound |
| ServerInstallations.GetAvailableServerInstallations | backend/src/main/java/cz/forgottenempire/servermanager/installation/ServerInstallationService.java:22-26 | the result has one record per type, in order, exactly when every type is stored; otherwise NotFound names the first missing type and no list is returned |
| ServerInstallations.AvailableAgreesWithLookups | backend/src/main/java/cz/forgottenempire/servermanager/installation/ServerInstallationService.java:22-35 | each listed record is what the single lookup returns, and its FINISHED status is what isServerInstalled answers |
| ServerInstallations.AnyMissingTypeFails | backend/src/main/java/cz/forgottenempire/servermanager/installation/ServerInstallationService.java:22-31 | one missing type anywhere makes the whole listing fail |
| ServerStatusModel.From | src/main/java/cz/forgottenempire/arma3servergui/model/ServerStatus.java:13-27 | the server is up iff the query answered; no answer gives 0 players and a null map and description; an answer's player count, map name and description are copied unchanged |
| ServerStatusModel.StatusKeepsAnswer | src/main/java/cz/forgottenempire/arma3servergui/model/ServerStatus.java:13-27 | the query answer can be read back from the status, so different answers give different statuses |
| ServerStatusModel.DownDiffersOnlyInFlag | src/main/java/cz/forgottenempire/arma3servergui/model/ServerStatus.java:16-19 | a server that is down is reported like an empty server that is up, except for the up flag |
| ServerDtoValidation.ViolationsMatchConstraints | src/main/java/cz/forgottenempire/arma3servergui/server/dtos/ServerDto.java:14-25 | Violations and Valid: a DTO has no violations iff name is non-null and non-empty, port, queryPort and maxPlayers are at least 1, and type is non-null; each violation matches the failure of its own field |
| ServerDtoValidation.OtherFieldsUnconstrained | src/main/java/cz/forgottenempire/arma3servergui/server/dtos/ServerDto.java:13-42 | id, description, passwords, flags, mod and DLC lists and instance info never affect validation |
| ServerDtoValidation.BlankNameAndHugePortPass | src/main/java/cz/forgottenempire/arma3servergui/server/dtos/ServerDto.java:14-18 | IsBlank: a name of spaces passes (@NotEmpty, not @NotBlank), and so does the largest int port, since there is no upper bound |

## Left out

- Process execution, file and network I/O, and the thread pool are not modelled as
  such. SteamCMD, Files/FileUtils, RestTemplate and Jackson's parser are oracles. The
  executor is a FIFO queue drained by `RunNextTask`, with no threads.
- File contents and sizes are not modelled. A copy makes the target a regular file.
- `FileUtils.copyFile`'s creation of the missing `keys` directory is not modelled.
- `FileUtils.deleteDirectory` is modelled as all or nothing. A delete that fails
  half-way and leaves part of the tree is not modelled.
- Paths are strings with '/' as the separator. `Path.of` normalisation is not modelled.
- The symbolic links do not make the mod directory reachable through the link path.
- Log messages, the `SimpleDateFormat` time stamp and `getQueue().size()` are not
  modelled. The time stamp is a string parameter of each task run.
- `getModName`, `getFileSize` and `getNormalizedName` are oracle functions of the
  record's id or name. The classes behind them are not part of this model.
- Constants is not part of this model. The Arma 3 app id is a constructor parameter,
  and the default account id is a parameter of the cron decision.
- The Web API URL is not part of the request model.
- `Long.parseLong` is modelled for ASCII digits only. Java also accepts other Unicode
  decimal digits.
- `WorkshopMod.id` is a boxed Long that can be null. The database is keyed by that
  nullable id. How JsonDbService stores a null id is not part of this model.
- The SteamCMD argument log holds `SteamCmdArg` values. `SteamCmdSpec.Render` gives
  each value's exact text.
- SteamCmdService.SteamCmdServiceImpl.RefreshMods: the saved-record log is stated only
  to grow. The order of the saves within a refresh is not stated, because the Java
  set's iteration order is unspecified.
- SteamCmdService.SteamCmdServiceImpl.ResetAll: the saved-record log is stated only to
  grow. The order of the reset saves follows the unspecified map order.
- SteamCmdService.SteamCmdServiceImpl.SubmitAll: the saved-record log is stated only to
  grow. The order in which ids are submitted is any order, as for a Java HashSet.
- Jackson's `readTree` merges duplicate object keys. Here a parsed tree is taken as the
  parser oracle gives it.
- `AbstractModMetadataProvider` and `JsonPropertyProvider` are not part of this model.
  The provider value only wraps the node.
- ServerType, InstallationStatus and ServerInstallation (backend) are not part of this
  model:
  - the service is generic over the type of server types;
  - `ServerType.getAll()` is the list passed in;
  - statuses other than FINISHED are kept by name;
  - the NotFound message text is not modelled.
- SourceServer is reduced to the three values `from` reads. A null player count, which
  would fail when unboxed, is not modelled.
- The nested DTO types are abstract types, because no constraint looks inside them. The
  validator's default message texts, the type message included, are not modelled.
- `SystemService` is an interface of operating-system queries with floating-point
  results. It has no logic to model.
- A SteamCMD run's effect on disk is an oracle (`Environment.download`) giving what the
  run leaves at or below the mod directory. A run adds or replaces entries there; files
  a run removes are not modelled. Nothing reads the file system between two runs of
  one download, so the runs' output is applied in run order after the retry loop.
- Null ids are assumed to be accepted: `modDb.find(null)`, `new WorkshopMod(null)`,
  `getModName(null)` and `getFileSize(null)` are taken to return normally. The classes
  behind them are not part of this model, so whether they throw for null is not known
  here.
- Unchecked exceptions are not modelled. Examples are an `InvalidPathException` from
  `Path.of` (`SteamCmdServiceImpl.java:168-169` and `:184`, outside the `try`), a
  `RuntimeException` from `getModName`, `getFileSize` or commons-io, and a
  `NullPointerException` in the executor task. Such an exception would end the task or
  the request early. SteamCmdService.SteamCmdServiceImpl.CreateSymlink and
  SteamCmdService.SteamCmdServiceImpl.DeleteSymlink swallow `IOException` only.
- An I/O fault is a fixed function of the operation (`Environment.fault`). The same
  operation on the same path fails every time, so a failure that clears on retry is
  not modelled.
- SteamCmdService.SteamCmdServiceImpl.InstallOrUpdateMod: the task holds a snapshot of
  the record's value. The Java lambda captures the mutable `WorkshopMod` object, so a
  change made to that object between submission and execution would be seen by the
  task; the model does not capture that aliasing.
- Entities.NewWorkshopMod: `installed = false`, no time stamp and no size are the
  defaults a fresh Java object has. The WorkshopMod class is not part of this model.
- SteamCmdSpec.CopiedTargets: a key whose target is an existing directory counts as a
  refused copy, as older commons-io versions throw `IOException` there. Newer ones
  throw `IllegalArgumentException`, which escapes the catch at
  `SteamCmdServiceImpl.java:206` and would end the task; that is not modelled.
- WorkshopMetadata.FindValueSpec: `findValue` searches depth first, each field's value
  before the next field, as older Jackson versions do. Newer versions check an object's
  direct fields before descending. The two differ when an earlier field's value holds
  the name deeper down. FindValueSpec and FirstFieldWins hold for both orders; the
  exact field chosen in the other cases is the older order's.
