# Verification of Catapult's stateful cores

This Dafny project models the parts of the Catapult tree vendored under
`platform-tools/systrace/catapult` that keep state across calls, processes and failures, and proves
what they promise. Every module is proved against all inputs, all runs or all reachable states.

| file | what it models |
|---|---|
| `PseudoLock.dfy`, `CloudFetch.dfy` | the pseudo-lock protocol of `cloud_storage._FileLock` as a state machine over system calls, and `GetIfHashChanged` run by many processes on top of it |
| `FetchStamp.dfy` | `GetIfChanged` and the `.fetchts` time stamp that saves hashing |
| `CloudUpload.dfy`, `UpdateConfig.dfy` | the upload transaction: uploaders with backups, conflict detection and reverse-order rollback, and the config that collects and executes jobs |
| `DevicePush.dfy`, `DeviceCalls.dfy` | `PushChangedFiles` and its checksum cache, with attempts that fail partway, and runs of calls that are rerun or give up |
| `ApkCache.dfy` | install, uninstall and the cached APK paths and checksums |
| `CacheToken.dfy` | the token handshake between sessions that share a device, and the dumped cache |
| `StripComments.dfy` | the JavaScript comment stripper and its tokenizer |
| `ModuleGraph.dfy`, `LoadSequence.dfy`, `ModuleLoader.dfy`, `CyclicMemos.dfy`, `BaseChecks.dfy`, `EmptyFiles.dfy`, `DependentFiles.dfy` | py_vulcanize's module loader, memoised dependency sets with and without cycles, the check that reads them while loading, load sequence with its depth guard, and file lists |
| `Manifest.dfy` | the indentation-stack parser of manifest listings |
| `FakeWalk.dfy` | the fake `os.walk` and its queue |
| `LocalPaths.dfy` | local paths in priority groups, their merging, and the fold over configs |
| `TickCount.dfy` | the 32-bit tick counter with its wrap-arounds |
| `Wrappers.dfy` | the option type |

Where the source changes state in place the model is a class with those fields (or a method with the
same loop), proved against a function on values; the properties are proved of that function. Commands
that leave the process (gsutil, adb, the file system, the clock, uuid) are parameters: each works, raises,
or raises having written part of what it was to write. `dafny verify dfyconfig.toml` checks everything. Every
lemma is marked `{:induction false}`, so that no proof rests on automatic induction.

What the proofs found, where the code does less than its text or a reader would expect:

- `ExecuteUpdateJobs` on a dirty config with nothing pending returns True, as its text promises for a
  dirty config, but does not write the file. A job for a platform of a dependency without a bucket leads there
  (`UpdateConfig.UnwrittenUpdateIff`).
- `GetIfChanged` renews its time stamp before the download. If the download raises, or the process dies, while an
  old file is present, the update is not retried until the hash file is written again; and a process that dies with
  the stamp just opened leaves an empty one on which every later call raises (`FetchStamp.CallStaysHealthyIff`,
  `FetchStamp.LostUpdateIsNeverRetried`, `FetchStamp.TornStampIsForGood`).
- A rollback of what was backed up cannot be repeated (`CloudUpload.SecondRollback`).
- Two forced uploads to one location can lose the old content; the exact condition on a batch is
  `CloudUpload.RestoresIffHarmless`.
- The checksum entry committed for a single file is never found again (`DevicePush.FileEntryNeverHits`), and
  after a failed push an attempt with edited host files, other roots or another flag can leave the device wrong; the
  exact condition is `DeviceCalls.RerunIsRightIffHarmless`.
- `InstallSplitApk` promises a no-op if all splits are installed. It is none for a selection of the base alone,
  nor after a smaller selection was found installed (`ApkCache.InstalledIsNoopIff`,
  `ApkCache.SmallerSelectionForgets`).
- A loaded list of APK paths that is outdated comes back for good if the query that finds it so raises in either
  of its commands, and one that lacks paths of the device passes for verified (`ApkCache.CaughtListComesBack`,
  `ApkCache.VerifiedIsExactIff`).
- The cache token notices new sessions, not work: a session from before the dump that goes on working is not
  detected (`CacheToken.WorkUnnoticedIff`).
- An install after a load can skip on old checksums, if the loaded paths are still there
  (`ApkCache.AllThereIffNotMisled`, `ApkCache.LoadedMisleadsIff`).
- When the module loaded reaches a cycle, and no file reached imports itself, some module on a cycle keeps a memoised
  dependency set that lacks itself (`CyclicMemos.MemosAreRightIffAcyclic`). A file that only imports itself has its
  right set (`CyclicMemos.SelfImportAlone`). While modules are being loaded, the check for the base module reads
  such sets, so on a cycle it can raise although the base module is imported (`BaseChecks.CycleHidesBase`).
- A module whose load raised stays in the loader's table, and is returned as it is when it is loaded again
  (`EmptyFiles.RaisedLoadIsTaken`).
- A manifest listing with a second namespace line is misread as soon as some element has another item after it
  (`Manifest.SecondNamespaceReadsIff`). That is for a namespace line without text after its address; one with such
  text is read as an element around the manifest (`Manifest.SecondNamespaceAsElement`).
- Merging a dependency that is refused has already extended the list of config paths
  (`LocalPaths.DependencyInfo.Update`).

## Model

| member | source | states |
|---|---|---|
| `PseudoLock.ExclusiveIffBothGuarded` | platform-tools/systrace/catapult/common/py_utils/py_utils/cloud_storage.py:244-330 | Over all schedules of any number of calls, with crashes, time-outs and failed removals, at most one call is in the body for a path; this holds for all schedules if and only if acquisition and release both take the global guard. |
| `PseudoLock.LockIsExclusive` | platform-tools/systrace/catapult/common/py_utils/py_utils/cloud_storage.py:276-330 | In every reachable state of the guarded protocol at most one call holds the lock of a path at any stage between locking and unlocking. |
| `PseudoLock.BrokenRun` | platform-tools/systrace/catapult/common/py_utils/py_utils/cloud_storage.py:249-262 | When either side skips the guard, the interleaving the source describes is a possible schedule and puts two calls in the body. |
| `PseudoLock.NeverWedged` | platform-tools/systrace/catapult/common/py_utils/py_utils/cloud_storage.py:265-274 | Whatever the history, once no live call holds the guard or the lock of a path, an idle call can get in, even over a lock file that was left behind. |
| `PseudoLock.InvIsKept` | platform-tools/systrace/catapult/common/py_utils/py_utils/cloud_storage.py:276-330 | Every system call keeps the protocol invariant: guard holder, flock owners, and every lock in use being the lock of the file its path names now. |
| `CloudFetch.AtMostOneReportIffSound` | platform-tools/systrace/catapult/common/py_utils/py_utils/cloud_storage.py:384-400 | In every run of interleaved calls with the same arguments at most one returns True, if and only if the object has the wanted hash or the file had it from the start. |
| `CloudFetch.ReturnsAreRightIffSound` | platform-tools/systrace/catapult/common/py_utils/py_utils/cloud_storage.py:384-400 | Every call that returns leaves the file with the wanted hash, over all runs, under the same condition and only then. |
| `CloudFetch.Alone` | platform-tools/systrace/catapult/common/py_utils/py_utils/cloud_storage.py:384-400 | From any point at which nobody is at work, a call that finds another file can run to its end, also after a server error: it replaces the file by the object, returns True, and leaves no lock file and no temporary file. |
| `CloudFetch.AloneUnchanged` | platform-tools/systrace/catapult/common/py_utils/py_utils/cloud_storage.py:396-398 | A call that finds the file it wants can run to its end, leaves it alone and returns False. |
| `CloudFetch.AloneRaises` | platform-tools/systrace/catapult/common/py_utils/py_utils/cloud_storage.py:343-356 | A call whose download raises can run to its end, and leaves the file alone and no temporary file. |
| `CloudFetch.FileIsNeverTorn` | platform-tools/systrace/catapult/common/py_utils/py_utils/cloud_storage.py:338-356 | At every point of every run the local file is its old content or the whole object, whatever partial content the downloads, retried ones and those that dead calls left running among them, have put into the temporary files. |
| `CloudFetch.TempsMayBeTorn` | platform-tools/systrace/catapult/common/py_utils/py_utils/cloud_storage.py:342-352 | A temporary file can hold anything at all while it is downloaded. |
| `CloudFetch.LitterIsOfTheDead` | platform-tools/systrace/catapult/common/py_utils/py_utils/cloud_storage.py:353-356 | Whatever temporary file there is, unless its removal raised, belongs to a call that is at work in the body or died there: every other call has moved or removed its own. |
| `FetchStamp.StampsRefineHashing` | platform-tools/systrace/catapult/common/py_utils/py_utils/cloud_storage.py:414-459 | Over every run with a clock that does not go back, in which no call loses an update or tears the stamp, each call that trusts the time stamp and does not die gives the result of a call that hashes every time, and the file ends the same. |
| `FetchStamp.CallStaysHealthyIff` | platform-tools/systrace/catapult/common/py_utils/py_utils/cloud_storage.py:434-459 | A call keeps the disk healthy (the shortcut fires only on a current file, and no empty stamp will be read) in all but these cases: with a new stamp later than the hash file, an old file stays because the download raises or the process dies before its move, or a wrong object stays because it dies before it removes the stamp; or it dies with the stamp just opened beside a file. |
| `FetchStamp.HealthyIffNextCallIsRight` | platform-tools/systrace/catapult/common/py_utils/py_utils/cloud_storage.py:434-459 | The disk is healthy if and only if the next call, whatever the clock and the download, does what a call that hashes does. |
| `FetchStamp.HealthyCallIs` | platform-tools/systrace/catapult/common/py_utils/py_utils/cloud_storage.py:407-459 | On a healthy disk a call that does not die does nothing without a hash file, leaves a file alone that has the wanted hash, and otherwise raises with the download or moves the object into place and says whether it has the hash; a call that hashed or fetched leaves its time as stamp, unless the object was wrong. |
| `FetchStamp.AlwaysHealthyIff` | platform-tools/systrace/catapult/common/py_utils/py_utils/cloud_storage.py:414-459 | Over a run with a clock that does not go back the disk is healthy at every point if and only if no call loses an update or tears the stamp. |
| `FetchStamp.LostUpdateIsNeverRetried` | platform-tools/systrace/catapult/common/py_utils/py_utils/cloud_storage.py:440-451 | After a lost update every later call reports no change and the wrong file stays, until the hash file is written again. |
| `FetchStamp.TornStampIsForGood` | platform-tools/systrace/catapult/common/py_utils/py_utils/cloud_storage.py:434-447 | After a torn stamp no call ever changes the file again, whatever becomes of the hash file: each raises on the empty stamp, or reports no change when there is no hash file. |
| `FetchStamp.LocalCopy.GetIfChanged` | platform-tools/systrace/catapult/common/py_utils/py_utils/cloud_storage.py:403-459 | The method that rewrites file and stamp in place, and may die after each write, gives the result and the new disk of the specification. |
| `CloudUpload.PlainUndo` | platform-tools/systrace/catapult/dependency_manager/dependency_manager/base_config.py:277-288 | Without force, for any fresh jobs, repeated locations included, stopping anywhere and rolling back with commands that work restores the cloud exactly, but for one object if an insert was torn. |
| `CloudUpload.PlainSuccess` | platform-tools/systrace/catapult/dependency_manager/dependency_manager/uploader.py:51-76 | Without force, a batch that goes through changes no object that was there, adds only the jobs' locations with their files, and its locations were distinct and free. |
| `CloudUpload.PlainSucceedsIff` | platform-tools/systrace/catapult/dependency_manager/dependency_manager/uploader.py:51-56 | With working commands a batch without force goes through if and only if its locations are distinct and not taken. |
| `CloudUpload.UploadEndsIff` | platform-tools/systrace/catapult/dependency_manager/dependency_manager/uploader.py:35-76 | An upload goes through if and only if its commands work and its location is free or force is given; it ends in a conflict if and only if it finds its location taken without force. |
| `CloudUpload.ReliableEnds` | platform-tools/systrace/catapult/dependency_manager/dependency_manager/uploader.py:51-76 | With commands that work a batch ends well or in a conflict, and with force it ends well. |
| `CloudUpload.ForcedUndo` | platform-tools/systrace/catapult/dependency_manager/dependency_manager/base_config.py:277-288 | With force, for any fresh jobs, repeated and overlapping locations included, stopping anywhere and rolling back with commands that work goes through and gives every address its old content except the harmed ones and a torn object that had no backup; no object disappears. |
| `CloudUpload.RestoresIffHarmless` | platform-tools/systrace/catapult/dependency_manager/dependency_manager/uploader.py:57-100 | With force every interrupted run on every cloud is undone, but for backup addresses and a torn object, if and only if the batch harms nothing but backup addresses. A job harms its backup, and its location too when a later job has harmed the backup. |
| `CloudUpload.RestoresIffDistinct` | platform-tools/systrace/catapult/dependency_manager/dependency_manager/uploader.py:57-100 | For batches with no backup on a location that condition is that no two jobs share a location. |
| `CloudUpload.DistinctHarmsBackups` | platform-tools/systrace/catapult/dependency_manager/dependency_manager/uploader.py:57-100 | At distinct locations only backup addresses are harmed, whatever overlaps. |
| `CloudUpload.HarmIsDone` | platform-tools/systrace/catapult/dependency_manager/dependency_manager/uploader.py:59-95 | Where all locations are taken and all commands work, each harmed address ends with a job's new file or with what another address held before. |
| `CloudUpload.SecondRollback` | platform-tools/systrace/catapult/dependency_manager/dependency_manager/uploader.py:78-100 | After a rollback of what was backed up, a second one copies whatever stands at the path None, or raises. |
| `CloudUpload.ForcedSuccess` | platform-tools/systrace/catapult/dependency_manager/dependency_manager/uploader.py:57-76 | A forced batch of any fresh jobs that goes through leaves every address alone that no job uses, each new file at its location unless a later job uses that address, and what a location held in its backup unless an earlier job used the location or a later one the backup. |
| `CloudUpload.DistinctSuccess` | platform-tools/systrace/catapult/dependency_manager/dependency_manager/uploader.py:57-76 | With distinct locations and no backup on a location that is every new file and every old one. |
| `UpdateConfig.CloudStorageUploader.Upload` | platform-tools/systrace/catapult/dependency_manager/dependency_manager/uploader.py:35-76 | The method that sets the uploader's flags does to the cloud and to the uploader what the specification says, on every fault. |
| `UpdateConfig.CloudStorageUploader.Rollback` | platform-tools/systrace/catapult/dependency_manager/dependency_manager/uploader.py:78-100 | The same for the rollback, which resets the backup path and leaves the backed-up flag set. |
| `UpdateConfig.BaseConfig.ExecuteUpdateJobs` | platform-tools/systrace/catapult/dependency_manager/dependency_manager/base_config.py:250-289 | The transaction over the pending uploaders, forward and backward loops included, ends in the cloud, the config and the result of the specification. |
| `UpdateConfig.ExecuteWrites` | platform-tools/systrace/catapult/dependency_manager/dependency_manager/base_config.py:270-289 | No execution changes the data; it answers by writability, dirtiness and what is pending; an update of something pending writes the data and empties the list, and nothing else writes the file. |
| `UpdateConfig.UpdatesIff` | platform-tools/systrace/catapult/dependency_manager/dependency_manager/base_config.py:270-289 | With upload commands that work, executing something pending on a dirty config updates it if and only if the file can be written and, without force, no location is taken or repeated. |
| `UpdateConfig.BaseConfig.AddCloudStorageDependencyUpdateJob` | platform-tools/systrace/catapult/dependency_manager/dependency_manager/base_config.py:193-248 | Adding a job sets the hash and, if given, the version of its platform and leaves all else in the data as it was, appends one fresh uploader, and executes it when asked; the error cases leave what the specification says. |
| `UpdateConfig.JobSetsOnlyItsFields` | platform-tools/systrace/catapult/dependency_manager/dependency_manager/base_config.py:236-238 | The data after a job: other dependencies, the bucket, the folder, other platforms and other fields as before, the hash that of the file, the version the job's if it has one. |
| `UpdateConfig.AddJobIs` | platform-tools/systrace/catapult/dependency_manager/dependency_manager/base_config.py:232-248 | Which error a job raises and when, and that one that is added has a fresh uploader of its file to its bucket, folder and hash. |
| `UpdateConfig.PlainFailureRestores` | platform-tools/systrace/catapult/dependency_manager/dependency_manager/base_config.py:270-289 | A failed execution without force, with fresh uploaders and a rollback whose commands work, leaves config file and data as they were and restores the cloud, but for one torn object. |
| `UpdateConfig.ForcedFailureRestores` | platform-tools/systrace/catapult/dependency_manager/dependency_manager/base_config.py:270-289 | A failed execution with force, with fresh uploaders and a rollback whose commands work, restores every address but the harmed ones and a torn object, and leaves the config file untouched; at distinct locations the harmed ones are backup addresses. |
| `UpdateConfig.UpdatedIsCleanIffPending` | platform-tools/systrace/catapult/dependency_manager/dependency_manager/base_config.py:271-289 | When an execution reports an update, nothing is pending, and the config is clean if and only if something was pending before. |
| `UpdateConfig.UnwrittenUpdateIff` | platform-tools/systrace/catapult/dependency_manager/dependency_manager/base_config.py:193-289 | Some run from a clean config leaves it dirty such that every execution reports an update and changes neither file, data nor cloud, if and only if the config has a platform of a dependency without a bucket. |
| `UpdateConfig.AddLeavesDirtyIff` | platform-tools/systrace/catapult/dependency_manager/dependency_manager/base_config.py:232-246 | On a clean config with nothing pending, adding a job leaves it so exactly if the platform is known, the bucket is missing, and the job changes the data. |
| `UpdateConfig.PlainUpdateOnlyAdds` | platform-tools/systrace/catapult/dependency_manager/dependency_manager/base_config.py:277-281 | A successful execution without force changes no pre-existing object and puts every job's file up. |
| `UpdateConfig.FileNeverDangles` | platform-tools/systrace/catapult/dependency_manager/dependency_manager/base_config.py:193-289 | Over every run of adding and executing jobs without force, with any faults also while rolling back, every object the config file on disk names is in the cloud with its hash. |
| `UpdateConfig.ForcedFileNeverDangles` | platform-tools/systrace/catapult/dependency_manager/dependency_manager/base_config.py:193-289 | The same over runs that force executions too, for hashes of one length none of which ends as a backup path does, if each forced execution finds fresh jobs at distinct locations and a rollback that works, and no plain one goes on with a job that a failed forced one backed up. |
| `DeviceCalls.EveryCallHasTrees` | platform-tools/systrace/catapult/devil/devil/android/device_utils.py:1365-1493 | In every run of calls on roots that do not nest, failed attempts, reruns and calls that give up included, a call that returns leaves each host file on the device, with the delete flag nothing else under a directory root, and no call changes other files. Each call must come upon no harm that a call which gave up has left. |
| `DeviceCalls.SameCallAgain` | platform-tools/systrace/catapult/devil/devil/android/device_utils.py:1365-1412 | After a call gave up, a call with the same host files and flag comes upon no harm. |
| `DeviceCalls.SettledIsHarmless` | platform-tools/systrace/catapult/devil/devil/android/device_utils.py:1448-1493 | A call comes upon no harm if the last call that could write or delete any of the files below its roots returned; in particular if no call gave up. |
| `DeviceCalls.CacheMakesNoDifference` | platform-tools/systrace/catapult/devil/devil/android/device_utils.py:1448-1460 | Two runs of the same requests leave the same in every file whose last call returned, whether their checksum caches are on or off, whatever sound entries they start with, and whatever their failed attempts left. |
| `DevicePush.TreesAreUnique` | platform-tools/systrace/catapult/devil/devil/android/device_utils.py:1346-1352 | What a call promises determines the device after it. |
| `DevicePush.TargetsAre` | platform-tools/systrace/catapult/devil/devil/android/device_utils.py:1414-1430 | What a tuple asks for: the file at its root, or each file of the directory at its path below the root. |
| `DeviceCalls.RunsStaySound` | platform-tools/systrace/catapult/devil/devil/android/device_utils.py:1448-1493 | Over every run each cache entry is true of the device but for the dirty files, those that attempts since their last measurement or commit were about to write or delete. |
| `DevicePush.SuccessHasTrees` | platform-tools/systrace/catapult/devil/devil/android/device_utils.py:1365-1412 | One attempt that works brings the device to the host trees whenever each entry it uses leads to the right plan. |
| `DevicePush.FailureStaysSound` | platform-tools/systrace/catapult/devil/devil/android/device_utils.py:1365-1412 | An attempt that fails at any command, leaving anything in the files it was to write or delete, leaves the cache true but for those files. |
| `DevicePush.FailureStaysHarmless` | platform-tools/systrace/catapult/devil/devil/android/device_utils.py:1365-1412 | The dirty files it leaves do not harm an attempt with the same host files and flag. |
| `DeviceCalls.RerunIsRightIffHarmless` | platform-tools/systrace/catapult/devil/devil/android/device_utils.py:1448-1493 | The next attempt after a failed one, with the host edited, other roots or another flag, is right whatever the failure left if and only if no file the failed attempt was to write or delete is taken for up to date, or with the delete flag is missing on the host and in the entry, by an entry the next attempt reuses. |
| `DevicePush.UncachedIsAlwaysRight` | platform-tools/systrace/catapult/devil/devil/android/device_utils.py:1448-1458 | With the cache off an attempt that works is right from any state at all. |
| `DevicePush.UncachedPlanIsExact` | platform-tools/systrace/catapult/devil/devil/android/device_utils.py:1462-1485 | With the cache off an attempt pushes just the files the device lacks or has otherwise, and with the flag deletes just those below directory roots that the host lacks. |
| `DevicePush.FileEntryNeverHits` | platform-tools/systrace/catapult/devil/devil/android/device_utils.py:1487-1491 | The entry committed for a single file has a key with a trailing slash and is never found, so the file is pushed again each time. |
| `DevicePush.DirectoryEntryHits` | platform-tools/systrace/catapult/devil/devil/android/device_utils.py:1448-1493 | The entry committed for a directory is used by the next call with the same files and flag, which then pushes and deletes nothing, without looking at the device. |
| `DevicePush.UncachedFileHits` | platform-tools/systrace/catapult/devil/devil/android/device_utils.py:1466-1473 | Without the cache that second push is saved. |
| `DevicePush.Compare` | platform-tools/systrace/catapult/devil/devil/android/device_utils.py:1466-1485 | The loop over host checksums finds exactly the files whose checksum on the device differs and, for a directory, exactly the measured files the host lacks. |
| `DevicePush.DeviceUtils.GetChangedAndStaleFiles` | platform-tools/systrace/catapult/devil/devil/android/device_utils.py:1414-1493 | The method that reads and writes the cache gives the entry, the files to push and to delete, and the entry to commit, of the specification. |
| `DevicePush.DeviceUtils.PushChangedFiles` | platform-tools/systrace/catapult/devil/devil/android/device_utils.py:1343-1412 | An attempt returns if and only if it does not come to a command that fails: a measurement, a removal if something is to be removed, a push if something is to be pushed. It then ends in the state of the specification; otherwise what was not yet run is undone, and only the files of the failing command are spoilt. |
| `ApkCache.CacheIsSoundIff` | platform-tools/systrace/catapult/devil/devil/android/device_utils.py:589-628 | Over every run of installs, uninstalls and queries, with any faults, it holds at every point that a cached path list is exact and a cached checksum set is a subset of what is on the device, if and only if no install returns and remembers checksums of different APKs with one split name. |
| `ApkCache.CacheStaysTrueIff` | platform-tools/systrace/catapult/devil/devil/android/device_utils.py:862-898 | One install, however it ends, leaves a true cache if and only if it does not return with checksums remembered of different APKs with one split name. |
| `ApkCache.InstallIsRight` | platform-tools/systrace/catapult/devil/devil/android/device_utils.py:827-898 | From a true cache an install whose split names do not clash keeps the package's cache true, and when it returns all selected APKs are on the device; the uninstalls it makes, after a checksum error too, are retried like any other. |
| `ApkCache.InstallLeaves` | platform-tools/systrace/catapult/devil/devil/android/device_utils.py:862-898 | After an install from a true cache that returns, the package has the pushed APKs and, if these are a proper part of the selection, the earlier ones with other split names; pushed are those whose checksum is not known, or all if none is compared or the earlier ones were uninstalled first. A command was used if and only if some were pushed, and the selection's checksums are remembered if and only if checksums were compared. |
| `ApkCache.InstallReturnsIff` | platform-tools/systrace/catapult/devil/devil/android/device_utils.py:852-898 | From a true cache an install returns if and only if the commands it comes to work, the uninstall and its retries included. |
| `ApkCache.AllThereIffNoClash` | platform-tools/systrace/catapult/devil/devil/android/device_utils.py:852-892 | After an install that returns, all selected APKs are on the device if and only if no two different ones have one split name. |
| `ApkCache.AllThereIffNotMisled` | platform-tools/systrace/catapult/devil/devil/android/device_utils.py:862-892 | From any cache, true or not, for a selection without clashing split names: every install that returns leaves all selected APKs there, whatever the device does, if and only if the cached checksums do not mislead, that is, are used, claim a selected APK that is missing, and do not lead to an uninstall. |
| `ApkCache.LoadedMisleadsIff` | platform-tools/systrace/catapult/devil/devil/android/device_utils.py:591-600 | A cache that was just loaded misleads if and only if all its paths are still there, are as many as the kind of install compares, and its checksums claim what is missing. |
| `ApkCache.SkipMeansThere` | platform-tools/systrace/catapult/devil/devil/android/device_utils.py:872-889 | From a true cache an install that used no install or uninstall command leaves the device alone, and returns only if all selected APKs were there. |
| `ApkCache.InstalledIsNoopIff` | platform-tools/systrace/catapult/devil/devil/android/device_utils.py:776-892 | When all selected APKs are there and nothing raises, an install is a no-op if and only if: a single APK is the only one of its package; for splits, the package has several and the cached checksums, if any, have all selected ones. |
| `ApkCache.SmallerSelectionForgets` | platform-tools/systrace/catapult/devil/devil/android/device_utils.py:801-898 | After an install found a selection there, installing a bigger selection that is there too is not a no-op, because only the first selection's checksums are remembered. |
| `ApkCache.UninstallRemoves` | platform-tools/systrace/catapult/devil/devil/android/device_utils.py:900-928 | However many attempts it takes, an uninstall that returns leaves no APK of the package and a true cache; one that raises leaves a true cache. |
| `ApkCache.AttemptReturnsIff` | platform-tools/systrace/catapult/devil/devil/android/device_utils.py:917-928 | From a true cache one attempt to uninstall returns if and only if its query works and there is nothing to remove or the command works; the cache then holds that nothing is there. |
| `ApkCache.UninstallReturns` | platform-tools/systrace/catapult/devil/devil/android/device_utils.py:900-928 | An uninstall returns if the commands of some attempt work. |
| `ApkCache.GetPathsIsExact` | platform-tools/systrace/catapult/devil/devil/android/device_utils.py:589-628 | From a true cache the path list returned is the device's, verified or not. |
| `ApkCache.InstallLeavesOthers` | platform-tools/systrace/catapult/devil/devil/android/device_utils.py:827-898 | An install changes neither device, cache nor mark of any other package. |
| `ApkCache.CaughtListComesBack` | platform-tools/systrace/catapult/devil/devil/android/device_utils.py:591-600 | A loaded list found to be outdated is returned by every later query if and only if the first query raised, in the existence check or in the query that should replace the list. |
| `ApkCache.VerifiedIsExactIff` | platform-tools/systrace/catapult/devil/devil/android/device_utils.py:591-600 | A loaded list that is checked by a query which does not raise comes out exact if and only if the device does not have more paths than it lists. |
| `ApkCache.NotOnDevice` | platform-tools/systrace/catapult/devil/devil/android/device_utils.py:1511-1514 | The selection of APKs whose checksum is not in the set. |
| `ApkCache.DeviceUtils.GetApplicationPathsInternal` | platform-tools/systrace/catapult/devil/devil/android/device_utils.py:589-628 | The method over the cache dictionaries ends in the state and result of the specification. |
| `ApkCache.DeviceUtils.UninstallPackage` | platform-tools/systrace/catapult/devil/devil/android/device_utils.py:900-928 | The same for the uninstall with its retries. |
| `ApkCache.DeviceUtils.ComputeStaleApks` | platform-tools/systrace/catapult/devil/devil/android/device_utils.py:1494-1514 | Host and device checksums are computed side by side and both sides end first, so the device's are cached even if the host's raise, whose error comes first. |
| `ApkCache.DeviceUtils.InstallInternal` | platform-tools/systrace/catapult/devil/devil/android/device_utils.py:827-898 | The same for the install, branch by branch. |
| `StripComments.StripIsIdempotent` | platform-tools/systrace/catapult/common/py_vulcanize/py_vulcanize/strip_js_comments.py:41-81 | On every text stripping twice is stripping once. |
| `StripComments.ScanIsClean` | platform-tools/systrace/catapult/common/py_vulcanize/py_vulcanize/strip_js_comments.py:50-81 | Joining the kept pieces creates no new opening of a comment, in code, in a line comment and at every nesting depth. |
| `StripComments.UnchangedIffNoComment` | platform-tools/systrace/catapult/common/py_vulcanize/py_vulcanize/strip_js_comments.py:41-81 | A text is left alone if and only if its tokens include no opening of a comment. |
| `StripComments.TextBeforeIsKept` | platform-tools/systrace/catapult/common/py_vulcanize/py_vulcanize/strip_js_comments.py:50-81 | Text without comments that ends in no slash or asterisk is kept before whatever follows. |
| `StripComments.CodeIsScan` | platform-tools/systrace/catapult/common/py_vulcanize/py_vulcanize/strip_js_comments.py:51-81 | Stripping the token stream is the character-by-character scanner that takes the four symbols from left to right. |
| `StripComments.TokensJoinToText` | platform-tools/systrace/catapult/common/py_vulcanize/py_vulcanize/strip_js_comments.py:22-38 | The tokens join to the text. |
| `StripComments.SymbolIsLeftmost` | platform-tools/systrace/catapult/common/py_vulcanize/py_vulcanize/strip_js_comments.py:23-32 | The symbol found is the leftmost one. |
| `StripComments.TokenizeJS` | platform-tools/systrace/catapult/common/py_vulcanize/py_vulcanize/strip_js_comments.py:10-38 | The loop over the rest of the text yields the tokens of the specification. |
| `StripComments.StripJSComments` | platform-tools/systrace/catapult/common/py_vulcanize/py_vulcanize/strip_js_comments.py:41-81 | The loops over the token stream give the text the character-level scanner gives. |
| `StripComments.BlockEndsWhenBalanced` | platform-tools/systrace/catapult/common/py_vulcanize/py_vulcanize/strip_js_comments.py:66-78 | A block comment is dropped up to the symbol that balances its opening, and stripping goes on after it. |
| `StripComments.UnbalancedBlockSwallows` | platform-tools/systrace/catapult/common/py_vulcanize/py_vulcanize/strip_js_comments.py:66-78 | A block comment that is never balanced drops the rest of the text. |
| `StripComments.LineCommentTakesItsNewline` | platform-tools/systrace/catapult/common/py_vulcanize/py_vulcanize/strip_js_comments.py:58-65 | A line comment is dropped together with the newline that ends it. |
| `StripComments.LineCommentIsCut` | platform-tools/systrace/catapult/common/py_vulcanize/py_vulcanize/strip_js_comments.py:58-65 | A line comment behind such text is cut out together with its newline, and the rest is stripped on its own. |
| `StripComments.BlockCommentIsCut` | platform-tools/systrace/catapult/common/py_vulcanize/py_vulcanize/strip_js_comments.py:66-78 | And so is a block comment without slash or asterisk in it. |
| `LoadSequence.SequenceIsRight` | platform-tools/systrace/catapult/common/py_vulcanize/py_vulcanize/module.py:198-217 | A sequence that is returned has no duplicates, holds exactly the modules reached from the roots, and puts each module after all its dependencies. |
| `LoadSequence.OneRootIsLast` | platform-tools/systrace/catapult/common/py_vulcanize/py_vulcanize/module.py:198-217 | The sequence of one root is the sequence of its dependencies, in the order they are listed, and then itself. |
| `LoadSequence.LastRootIsAppended` | platform-tools/systrace/catapult/common/py_vulcanize/py_vulcanize/project.py:143-148 | One more root appends its own sequence without what is loaded already. With the other law this determines every sequence. |
| `LoadSequence.CycleRaises` | platform-tools/systrace/catapult/common/py_vulcanize/py_vulcanize/module.py:208-214 | A cycle that any root reaches always raises. |
| `LoadSequence.ShortChainsNeverRaise` | platform-tools/systrace/catapult/common/py_vulcanize/py_vulcanize/module.py:208-214 | A graph whose chains from every root have at most 32 edges never raises. |
| `LoadSequence.ChainPassesIff` | platform-tools/systrace/catapult/common/py_vulcanize/py_vulcanize/module.py:208-209 | The bound is sharp: a chain without a cycle passes if and only if it has at most 32 edges. |
| `LoadSequence.Sequencer.ComputeLoadSequenceRecursive` | platform-tools/systrace/catapult/common/py_vulcanize/py_vulcanize/module.py:198-217 | The recursion over the two shared accumulators extends the sequence as the specification says, or raises when it does. |
| `LoadSequence.CalcLoadSequenceForModules` | platform-tools/systrace/catapult/common/py_vulcanize/py_vulcanize/project.py:143-148 | The driver that passes the accumulators to each root computes the specified sequence. |
| `ModuleLoader.LoadsExactlyReached` | platform-tools/systrace/catapult/common/py_vulcanize/py_vulcanize/resource_loader.py:111-143 | A load into an empty table that returns has built one module for each reachable name, with its imports as dependent modules, on cyclic graphs too. |
| `ModuleLoader.LoadGoesThroughIff` | platform-tools/systrace/catapult/common/py_vulcanize/py_vulcanize/resource_loader.py:124-143 | When no reached file is empty or uses the base module's export, loading ends without an exception, whatever the cycles, if and only if every import of a reached file exists. |
| `ModuleLoader.NamesGoThroughIff` | platform-tools/systrace/catapult/common/py_vulcanize/py_vulcanize/project.py:136-142 | Files that are not empty and use no export are loaded by name if and only if every import of a file reached from the names exists. |
| `EmptyFiles.EmptyIsNamedOnce` | platform-tools/systrace/catapult/common/py_vulcanize/py_vulcanize/resource_loader.py:124-126 | After a load that goes through, an empty file is named by at most one import of the files reached, and by none if it is the one loaded. |
| `EmptyFiles.RaisedLoadIsTaken` | platform-tools/systrace/catapult/common/py_vulcanize/py_vulcanize/resource_loader.py:124-143 | A load that raised leaves the module in the table, and another load of it returns it as it is. |
| `BaseChecks.AcyclicLoadGoesThroughIff` | platform-tools/systrace/catapult/common/py_vulcanize/py_vulcanize/html_module.py:40-48 | When no reached file is empty and no cycle is reached, loading ends without an exception if and only if every import of a reached file exists and every reached file that uses the base module's export depends on the base module. |
| `BaseChecks.LoadNeeds` | platform-tools/systrace/catapult/common/py_vulcanize/py_vulcanize/html_module.py:40-48 | On every graph a load that goes through shows both. |
| `BaseChecks.CycleHidesBase` | platform-tools/systrace/catapult/common/py_vulcanize/py_vulcanize/html_module.py:40-48 | On cycles they do not suffice: two files import each other, the second nothing else, and it uses the export; loading the first raises, though it imports the base module too. |
| `ModuleLoader.MemosAreRight` | platform-tools/systrace/catapult/common/py_vulcanize/py_vulcanize/module.py:187-196 | When the module loaded reaches no cycle, the memoised set read from any loaded module is exactly the modules it depends on. |
| `ModuleLoader.FillIsRight` | platform-tools/systrace/catapult/common/py_vulcanize/py_vulcanize/module.py:187-196 | Where no cycle is reached, reading the memo of one module gives its dependencies and keeps every memo below it right. |
| `CyclicMemos.MemosAreRightIffAcyclic` | platform-tools/systrace/catapult/common/py_vulcanize/py_vulcanize/module.py:169-196 | After a load that goes through, where no reached file imports itself, every loaded module's set is its set of dependencies if and only if the module loaded reaches no cycle. |
| `CyclicMemos.CyclicMemoIsIncomplete` | platform-tools/systrace/catapult/common/py_vulcanize/py_vulcanize/module.py:189-196 | If it reaches a cycle, and no reached file imports itself, some module on a cycle has a set that lacks the module itself, whenever it is read. |
| `CyclicMemos.SelfImportAlone` | platform-tools/systrace/catapult/common/py_vulcanize/py_vulcanize/module.py:189-196 | A file that imports only itself is on a cycle and has its right set. |
| `CyclicMemos.SelfImportMends` | platform-tools/systrace/catapult/common/py_vulcanize/py_vulcanize/module.py:189-196 | With one file importing a second, and the second itself and then the first, all sets are right, although both are on a cycle. |
| `ModuleLoader.ResourceLoader.LoadModule` | platform-tools/systrace/catapult/common/py_vulcanize/py_vulcanize/resource_loader.py:111-143 | The recursion that fills the loader's tables in place ends in the tables and outcome of the specification. |
| `ModuleLoader.ResourceLoader.AllDependentModulesRecursive` | platform-tools/systrace/catapult/common/py_vulcanize/py_vulcanize/module.py:187-196 | The property that fills the memo fields ends in the memos of the specification and returns the module's own. |
| `ModuleLoader.CalcLoadSequenceForModuleNames` | platform-tools/systrace/catapult/common/py_vulcanize/py_vulcanize/project.py:136-148 | Loading by name and sequencing: a sequence is returned exactly when loading goes through and no depth guard raises, and it is right for the import graph of the files. |
| `DependentFiles.GetAllDependentFilenamesRecursive` | platform-tools/systrace/catapult/common/py_vulcanize/py_vulcanize/module.py:219-243 | On any graph the result starts with the module's own file and has just the files of the reached modules: their own, raw scripts if asked for, style sheets and their images, and images of inline style sheets; each as often as these modules name it. The modules stand behind it depth first, in the order of their imports. |
| `DependentFiles.Collector.Get` | platform-tools/systrace/catapult/common/py_vulcanize/py_vulcanize/module.py:224-231 | One call adds the module, then only modules reached from it, in the order of the dependencies, and leaves the dependencies of each visited. |
| `Manifest.ListingParses` | platform-tools/systrace/catapult/devil/devil/android/apk_helper.py:47-103 | For every tree, parsing its indented listing with or without the namespace line gives each element its attributes and its children by name in order, or raises exactly when an attribute shares its name within an element. |
| `Manifest.ParseManifest` | platform-tools/systrace/catapult/devil/devil/android/apk_helper.py:50-103 | The loop with its stack of dictionaries computes the specified result. |
| `Manifest.HeightIsIndentation` | platform-tools/systrace/catapult/devil/devil/android/apk_helper.py:74-81 | Over every well-indented text the height of the stack is the depth of the last line plus one, and one more after an element. |
| `Manifest.ListingIsWellIndented` | platform-tools/systrace/catapult/devil/devil/android/apk_helper.py:35-46 | Every listing is well indented. |
| `Manifest.ListingBuilds` | platform-tools/systrace/catapult/devil/devil/android/apk_helper.py:66-101 | A listing fills the dictionary at its depth with what it means, from whatever is there, and no other that was there. |
| `Manifest.BuildIsMeaning` | platform-tools/systrace/catapult/devil/devil/android/apk_helper.py:83-101 | Filling a dictionary item by item ends in its meaning, or fails exactly when names clash. |
| `Manifest.BlankChangesNothing` | platform-tools/systrace/catapult/devil/devil/android/apk_helper.py:64-66 | An empty line can stand anywhere. |
| `Manifest.OtherChangesNothing` | platform-tools/systrace/catapult/devil/devil/android/apk_helper.py:79-101 | A line that is neither element nor attribute can stand before any line that is not indented more. |
| `Manifest.SecondNamespaceReadsIff` | platform-tools/systrace/catapult/devil/devil/android/apk_helper.py:54-62 | Below a second namespace line without text after its address, which indents all once more, a manifest without clashes is read right if and only if in every list an element is only ever the last item. |
| `Manifest.SecondNamespaceNests` | platform-tools/systrace/catapult/devil/devil/android/apk_helper.py:54-62 | What is read there for every manifest: each item after an element goes into that element. |
| `Manifest.SecondNamespaceMisplaces` | platform-tools/systrace/catapult/devil/devil/android/apk_helper.py:54-62 | So any root with two elements in it is misread below such a line. |
| `Manifest.SecondNamespaceAsElement` | platform-tools/systrace/catapult/devil/devil/android/apk_helper.py:83-91 | A second namespace line with text after its address matches the pattern of an element, and is read as one element that has all of the manifest in it. |
| `FakeWalk.FakeWalk` | platform-tools/systrace/catapult/common/py_vulcanize/py_vulcanize/fake_fs.py:107-143 | The loop over the queue terminates and yields the top and every directory below it that leads to a file, each once, parents first, each subtree in one piece, the directories of one directory in the reverse order of their last files, with the right names, those of directories sorted. |
| `FakeWalk.FakeWalkDirs` | platform-tools/systrace/catapult/common/py_vulcanize/py_vulcanize/fake_fs.py:120-139 | The inner loop over all file names finds the names in a directory and puts its subdirectories at the front of the queue. |
| `FakeWalk.EachFileOnce` | platform-tools/systrace/catapult/common/py_vulcanize/py_vulcanize/fake_fs.py:121-143 | In a walk each file below the top is listed exactly once, in the entry of its own directory. |
| `FakeWalk.FilesAreCounted` | platform-tools/systrace/catapult/common/py_vulcanize/py_vulcanize/fake_fs.py:121-130 | A name is listed in a directory as often as its file stands in the table. |
| `FakeWalk.VisitKeepsInv` | platform-tools/systrace/catapult/common/py_vulcanize/py_vulcanize/fake_fs.py:111-143 | Visiting a directory keeps the queue right: parents yielded, nothing lost, open subtrees in front. |
| `LocalPaths.MergeAnswersAsConcat` | platform-tools/systrace/catapult/dependency_manager/dependency_manager/local_path_info.py:13-34 | Merged groups with duplicates left out answer in every file system, ties included, as the groups one after the other. |
| `LocalPaths.MergingTwiceIsMergingOnce` | platform-tools/systrace/catapult/dependency_manager/dependency_manager/local_path_info.py:25-34 | Merging the same local paths a second time changes nothing. |
| `LocalPaths.MergeHasBoth` | platform-tools/systrace/catapult/dependency_manager/dependency_manager/local_path_info.py:21-34 | Merging keeps exactly the paths of both. |
| `LocalPaths.NewestIsFirstNewest` | platform-tools/systrace/catapult/dependency_manager/dependency_manager/local_path_info.py:18-18 | The path chosen in a group is the first of those modified last. |
| `LocalPaths.AnswerIsPick` | platform-tools/systrace/catapult/dependency_manager/dependency_manager/local_path_info.py:13-19 | The answer is, in the first group of which a path exists, the first of those modified last. |
| `LocalPaths.NoneIffNothingExists` | platform-tools/systrace/catapult/dependency_manager/dependency_manager/local_path_info.py:13-19 | There is no answer exactly when no path of any group exists. |
| `LocalPaths.TableCombines` | platform-tools/systrace/catapult/dependency_manager/dependency_manager/manager.py:197-222 | After any configs that are not refused there is an entry for each key they name, and it has all config paths in order, the one cloud storage info given, and answers as all local paths of all configs in order. |
| `LocalPaths.RefusedIffConflict` | platform-tools/systrace/catapult/dependency_manager/dependency_manager/dependency_info.py:48-58 | The configs are refused if and only if two of them give cloud storage data for one dependency and platform. |
| `LocalPaths.RefusalIsConflict` | platform-tools/systrace/catapult/dependency_manager/dependency_manager/dependency_info.py:36-58 | At the info that is refused the keys agree, and the table is as before it, but for the config paths of that entry, which have been extended. |
| `LocalPaths.LocalPathInfo.GetLocalPath` | platform-tools/systrace/catapult/dependency_manager/dependency_manager/local_path_info.py:13-19 | The loop over the groups finds the specified path. |
| `LocalPaths.LocalPathInfo.Update` | platform-tools/systrace/catapult/dependency_manager/dependency_manager/local_path_info.py:25-34 | The loop that appends to the groups ends in the merged groups. |
| `LocalPaths.DependencyInfo.Update` | platform-tools/systrace/catapult/dependency_manager/dependency_manager/dependency_info.py:36-62 | The update ends in the merged info; on different keys or two cloud storage infos it raises with the config paths extended and nothing else changed. |
| `LocalPaths.DependencyManager.UpdateDependencies` | platform-tools/systrace/catapult/dependency_manager/dependency_manager/manager.py:214-222 | From any table the loop over the infos of one config ends in the table of the specification, also when it raises. |
| `LocalPaths.DependencyManager.UpdateConfigs` | platform-tools/systrace/catapult/dependency_manager/dependency_manager/manager.py:50-51 | The loop over the configs is one fold over all their infos, up to the first that raises. |
| `TickCount.ExactIffOftenEnough` | platform-tools/systrace/catapult/common/py_trace_event/py_trace_event/trace_time.py:183-193 | For true times that never decrease every output is the true millisecond count if and only if the first is below 2^32 and no two calls are 2^32 or more apart. |
| `TickCount.NeverGoesBack` | platform-tools/systrace/catapult/common/py_trace_event/py_trace_event/trace_time.py:183-193 | Whatever is sampled, the output never decreases. |
| `TickCount.TickClock.Now` | platform-tools/systrace/catapult/common/py_trace_event/py_trace_event/trace_time.py:183-193 | The function that updates the two globals returns the extended count of all samples so far. |
| `CacheToken.LoadsIffNextToInit` | platform-tools/systrace/catapult/devil/devil/android/device_utils.py:2553-2559 | A cache is loaded if and only if the loader's initialisation came right after the initialisation whose token the dump carries. |
| `CacheToken.LoadsIffNobodyInitialised` | platform-tools/systrace/catapult/devil/devil/android/device_utils.py:2553-2559 | In every run, a dump that carries the token on the device is loaded by a session that initialises for it if and only if no session initialised in between, whatever the others did to the device. |
| `CacheToken.WorkUnnoticedIff` | platform-tools/systrace/catapult/devil/devil/android/device_utils.py:2556-2559 | Work between a dump and its load goes unnoticed if and only if its session had been initialised before. |
| `CacheToken.LoadedIsDumped` | platform-tools/systrace/catapult/devil/devil/android/device_utils.py:2561-2573 | A loaded cache equals the dumped one, sets through lists and back, and every loaded path list is marked for verification. |
| `CacheToken.LoadIs` | platform-tools/systrace/catapult/devil/devil/android/device_utils.py:2551-2573 | A load answers true if and only if the dump has a token and it is the one the loader found when it initialised; one that answers false leaves the session's cache and paths to verify as they were; no load changes another session. |
| `CacheToken.EventsChangeTheirSession` | platform-tools/systrace/catapult/devil/devil/android/device_utils.py:2158-2186 | The same at every event of every run: what it does to tokens, cache and marks of its session, and that all other sessions stay. |
| `CacheToken.NobodyElseWorked` | platform-tools/systrace/catapult/devil/devil/android/device_utils.py:2538-2594 | When sessions dump, work and load only while the token on the device is their own, nobody but the dump's maker and its loader has worked on the device between the dump and a load that works. |
| `CacheToken.OldSessionGoesUnnoticed` | platform-tools/systrace/catapult/devil/devil/android/device_utils.py:2556-2559 | Such a run exists: a session from before the dump goes on working, and the load works although the device changed. |
| `CacheToken.InvHolds` | platform-tools/systrace/catapult/devil/devil/android/device_utils.py:2158-2186 | In every run tokens are distinct and each session's pair of tokens is that of an initialisation of its own and the one before it. |
| `CacheToken.DeviceUtils.EnsureCacheInitialized` | platform-tools/systrace/catapult/devil/devil/android/device_utils.py:2158-2186 | The method sets the session's tokens and the device's as the specification says, once. |
| `CacheToken.DeviceUtils.LoadCacheData` | platform-tools/systrace/catapult/devil/devil/android/device_utils.py:2553-2573 | The method ends in the session and result of the specification, and takes over nothing when it answers false. |
| `CacheToken.DeviceUtils.DumpCacheData` | platform-tools/systrace/catapult/devil/devil/android/device_utils.py:2584-2594 | The dump carries the session's token and its maps, each set as a list of its elements. |
| `CacheToken.DeviceUtils.ClearCache` | platform-tools/systrace/catapult/devil/devil/android/device_utils.py:2514-2536 | Clearing puts the session back to a new one, so that its next use initialises again. |

## Left out

Assumptions that the statements make and the code does not check:

- Checksums are injective, tokens are unique, and the shell command that reads and writes the token is one step.
- Forced executions start with fresh uploaders: reusing one after it was backed up and rolled back is not promised to work, because the rollback resets its backup path and leaves its backed-up flag set.
- The command that removes an object and the `Exists` query either work or raise without effect.
- A config file whose writing fails is left as it was; a torn config file is not modelled.
- `GetIfHashChanged` is modelled for calls with the same arguments and no other writer of the file.
- Device roots do not nest over a run of pushes, and a root is always a file or always a directory; empty directories and links are not modelled.

Parts of the modelled functions that the models do not have:

- CyclicMemos.MemosAreRightIffAcyclic: says nothing when a reached file imports itself, because then a cycle need not spoil the sets (`CyclicMemos.SelfImportMends`) and it depends on the order of the imports whether it does.
- An attempt of a push, an install or an uninstall that timed out is taken to have stopped: what its commands do to the device later is not modelled.
- The Windows variants of the lock. A download that reports success is taken to have written the whole object, and the move into place to be one step, as it is within one directory.
- The float text of the `.fetchts` stamp: time is an integer, and the stamp is empty or written, never half written.
- The fallback that pushes a whole directory when checksums cannot be computed, `mkdir`, and the choice between single pushes and a zip file: they do not change which files are to arrive.
- `GrantPermissions`, `ForceStop`, SDK levels and split selection: parameters of an install that may raise.
- A missing APK file on the host, which raises before anything is read.
- The regular expressions that classify manifest lines: a line is its depth and what it was classified as.
- Module identity: a module is its name, so two loaders or two objects of one name are not told apart; parsing a file is its list of imports and flags for what can be at fault, and the files of its resources are a table.
- The dominator graph and the graph drawing of a project.
- For `_FakeWalk`, paths that are not normalised, and removal of names by the caller during the walk.
- The division of the tick count by 1000.0, and the lock around it: one call at a time.
- The manager's table holds values, so a dependency info that two configs share as one object is not modelled; the fallback to the default platform is a lookup.
- `DumpCacheData` turning the live checksum sets into lists in place: membership is all the later code asks of them.
- JSON text, properties fetched with `getprop`, and the external storage path.

Left out because they would add only easy members: bucket and file listing, argument parsing, platform names, path formatting, logging, tracing agents, BattOr handling, HTML and CSS generation.
