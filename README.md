# accsr: remote storage synchronisation and configuration, modelled in Dafny

This project models the core of the `accsr` library in Dafny and proves
properties of that model. Four parts are covered:

- **Remote storage engine** (`src/accsr/remote_storage.py`). `SyncObject`
  pairs one local path with one remote object. `TransactionSummary` sorts
  those pairs into buckets: skipped, collided, equal on the target, different
  on the target, or missing there. `RemoteStorage` holds the path and filter
  rules, the scan loops that fill a summary, the executor that uploads or
  downloads the files to sync, and `pull`, `push` and `delete`.
- **Older wrapper** (`persistence/remote_storage.py`). It pulls and pushes
  single files and whole directories, deciding only whether to overwrite.
- **Configuration loader** (`src/accsr/config.py`). It covers
  `recursive_dict_update`, `env:` substitution, left-to-right layering of
  configuration files, hierarchical key lookup, and the provider that caches
  one configuration instance.
- **Loading helpers** (`src/accsr/loading.py`, `src/data_access/loading.py`).
  They cover `download_file` and the two variants of `open_file_in_tar`.

Modules, one per file:

| file | module | models |
|---|---|---|
| wrappers.dfy | Wrappers | `Option`, `Result` and the Python exception classes raised |
| py_strings.dfy | PyStrings | `lstrip`/`rstrip`/`strip` with a character set, `startswith`, `str.replace`, posix `os.path.join` and `os.path.dirname` |
| sync_object.dfy | SyncObjects | local file-system snapshot and `os.makedirs` on it, remote objects, `SyncObject` and its constructor |
| transaction_summary.dfy | Summaries | `TransactionSummary` as a class over a ghost history of `add_entry` calls |
| backend.dfy | Buckets | the bucket as the sequence of its objects: prefix listing, lookup, upload, delete |
| storage_paths.dfy | StoragePaths | base path, remote and destination paths, false positives of a listing, filters, prefix stripping of `pull` |
| planning.dfy | Planning | the per-object decisions of the pull and push scans, and the scans as folds |
| executor.dfy | Executor | `_execute_sync` and the loop of `_execute_sync_from_summary` |
| remote_storage.dfy | RemoteStorages | class `RemoteStorage`: scan loops, execution, `pull`, `push`, `delete` |
| legacy_storage.dfy | LegacyStorage | class `LegacyRemoteStorage` of `persistence/remote_storage.py` |
| config.dfy | Configs | JSON values as ordered dicts, merge, substitution, layering, lookup, `ConfigurationBase`, `ConfigProviderBase` |
| loading.dfy | Loading | `download_file`, and both `open_file_in_tar` variants over the list of archive member names |

Each operation is modelled in the form the source gives it:

- Pure rules (paths, filters, per-object decisions) are functions.
- Loops become methods with `while` loops. Each is proved equal to a fold
  function, and the properties are stated as lemmas about that fold.
- Objects whose fields are updated are classes: `TransactionSummary`,
  `RemoteStorage`, `LegacyRemoteStorage`, `Configuration`, `ConfigProvider`.

The operations follow the code as written, including where it departs from
what its comments and docstrings describe. The defects listed under
"## Findings" are modelled as written too; each corrected definition stands
beside the as-written one, with its intended property proved, and is not used
by the operations. Behaviour of the code that is easy to overlook:

- **Pulling onto an existing local directory.** The scan sets the object's
  `collides_with` to such a directory (src/accsr/remote_storage.py:942-944),
  but `_get_pull_summary` first passes that directory as `local_path` to
  `SyncObject`, and `set_local_path` raises FileExistsError. So the scan fails
  (`Planning.PullOntoDirectoryFails`), and a successful pull scan never holds
  a collision (`Planning.PullPlanHasNoCollisions`).
- **Pushing a file whose only true match is a descendant.** Listing "a" can
  return only "a/b". That single match is taken as the file's remote
  counterpart, and the constructor's name check then raises ValueError
  (`Planning.PushDescendantOnlyMatchFails`).
- **Legacy `pull_file` of a name without a directory part.** With no local
  base directory, `os.makedirs` of the empty directory name raises
  FileNotFoundError after the object was fetched, and `pull` passes it on
  instead of trying a directory (`LegacyStorage.PullBareNameFails`).
- **Transfer size is computed early.** `_execute_sync` computes the transfer
  size for its log line before it looks at the direction. A pull without a
  remote object therefore fails with FileNotFoundError, not RuntimeError.

## Model

| member | source | states |
|---|---|---|
| SyncObjects.Normalized | src/accsr/remote_storage.py:154-158 | the object the constructor keeps has the same size and hash, and its name has no leading "/" |
| SyncObjects.SyncObject.BytesTransferred | src/accsr/remote_storage.py:238-257 | succeeds iff the side the direction transfers from exists; then gives the local size for push and the remote size for pull; otherwise FileNotFoundError |
| SyncObjects.NewSyncObject | src/accsr/remote_storage.py:134-226 | FileExistsError iff the local path is a directory; success iff none of the ValueError conditions holds; a result is `Valid()`, has the stripped remote path, exists locally iff the path is a file (with that file's size and hash), and has the overriding hash when one is given |
| SyncObjects.EqualHashMeansBothSides | src/accsr/remote_storage.py:207-236 | equal hashes are only reported for an object present on both sides |
| SyncObjects.SyncObject.ExistsOnTarget | src/accsr/remote_storage.py:206-211 | stated by `EqualHashMeansBothSides`: false whenever the file is missing locally or no remote object is present |
| SyncObjects.SyncObject.EqualMd5HashSum | src/accsr/remote_storage.py:232-236 | stated by `EqualHashMeansBothSides` and `ConstructedHashesCompare`: false unless the object exists on both sides, and then iff the md5 of the file equals the object's hash |
| SyncObjects.ConstructedHashesCompare | src/accsr/remote_storage.py:183-200 | for a local file with a remote object and no overriding hash, the hashes are equal iff the file's md5 equals the object's hash |
| Summaries.TransactionSummary.constructor | src/accsr/remote_storage.py:281-291 | every list and the collision dictionary start empty, with the given direction |
| Summaries.Classify | src/accsr/remote_storage.py:342-367 | stated by `SelectMembers`, `MatchedPartition` and `TransactionSummary.AddEntry`: the bucket `add_entry` puts an object in, in the order of its branches (skip, collision, equal, different, missing) |
| Summaries.TransactionSummary.AddEntry | src/accsr/remote_storage.py:342-367 | a skipped object goes only to the skipped list; any other object goes to the matched list and to exactly one of collisions, equal, different and missing; the invariant tying each bucket to the history is kept |
| Summaries.TransactionSummary.DerivedProperties | src/accsr/remote_storage.py:300-332 | `files_to_sync` is the missing objects then the differing ones; `requires_force` iff some entry differs on the target; collisions exist iff some entry collided; the matched count is the sum of the four bucket counts |
| Summaries.TransactionSummary.FilesToSync | src/accsr/remote_storage.py:299-306 | stated by `DerivedProperties`: the missing objects followed by the differing ones, in the order of their `add_entry` calls |
| Summaries.TransactionSummary.RequiresForce | src/accsr/remote_storage.py:318-324 | stated by `DerivedProperties` and `SelectNonEmpty`: true iff some entry was classified as existing on the target with a different hash |
| Summaries.TransactionSummary.HasUnresolvableCollisions | src/accsr/remote_storage.py:326-332 | stated by `DerivedProperties` and `CollisionsNonEmpty`: true iff some entry collided |
| Summaries.TransactionSummary.AllFilesAnalyzed | src/accsr/remote_storage.py:334-340 | stated by `AnalyzedCount`: the skipped then the matched objects, as many as there were `add_entry` calls |
| Summaries.TransactionSummary.SizeFilesToSync | src/accsr/remote_storage.py:308-316 | stated by `SumBytesOk` and `SumBytesAppend`: raises iff some file to sync lacks the side its direction transfers from, else the sum of their transfer sizes |
| Summaries.SelectMembers | src/accsr/remote_storage.py:342-367 | an object is in a bucket iff an entry classified into that bucket carried it |
| Summaries.SelectNonEmpty | src/accsr/remote_storage.py:319-324 | a bucket is non-empty iff some entry was classified into it |
| Summaries.CollisionsNonEmpty | src/accsr/remote_storage.py:327-332 | the collision dictionary is non-empty iff some entry collided |
| Summaries.MatchedPartition | src/accsr/remote_storage.py:342-367 | as multisets, the matched objects are exactly the union of the four buckets |
| Summaries.MatchedCount | src/accsr/remote_storage.py:342-367 | no matched object is lost or counted twice among the four buckets |
| Summaries.AnalyzedCount | src/accsr/remote_storage.py:335-340 | the skipped and the matched objects together number the `add_entry` calls |
| Summaries.SumBytesAppend | src/accsr/remote_storage.py:308-316 | the total size of a concatenation exists iff both parts have one, and is their sum |
| Summaries.SumBytesOk | src/accsr/remote_storage.py:308-316 | `size_files_to_sync` raises iff some object lacks the side its direction transfers from |
| Buckets.ListObjects | src/accsr/remote_storage.py:918 | the listing holds exactly the objects of the bucket whose name starts with the prefix, and is no longer than the bucket |
| Buckets.Find | persistence/remote_storage.py:70 | finds an object with exactly that name, or reports that none exists |
| Buckets.Upload | src/accsr/remote_storage.py:566-571 | the uploaded object is stored; other names are kept and nothing else is added |
| Buckets.FindAfterUpload | src/accsr/remote_storage.py:566-571 | after an upload, the name is found with the uploaded content |
| Buckets.FindOtherAfterUpload | src/accsr/remote_storage.py:566-571 | an upload changes nothing for other names |
| Buckets.DeleteObject | src/accsr/remote_storage.py:1228 | succeeds iff the object is in the bucket, and then removes exactly one copy of it |
| Buckets.ListObjectsSubMultiset | src/accsr/remote_storage.py:1205 | a listing holds each object at most as often as the bucket does |
| StoragePaths.NormalizeBasePathAsWritten | src/accsr/remote_storage.py:484-497 | the source's normaliser: "" for None, and a result without surrounding blanks |
| StoragePaths.NormalizeBasePathLeavesSlash | src/accsr/remote_storage.py:492-497 | "/ /a" is normalised to "/a", which starts with "/" |
| StoragePaths.NormalizeBasePath | src/accsr/remote_storage.py:484-497 | the corrected normaliser: "" for None, never a leading "/", no surrounding blanks |
| StoragePaths.NormalizeBasePathAgrees | src/accsr/remote_storage.py:492-497 | wherever the source's normaliser leaves no leading "/", the corrected one gives the same result |
| StoragePaths.FullRemotePath | src/accsr/remote_storage.py:634-643 | never starts with "/"; is the relative path without leading "/" for an empty base; is `base/path` otherwise |
| StoragePaths.GetPushRemotePath | src/accsr/remote_storage.py:966-977 | never starts with "/" |
| StoragePaths.PushRemotePathIsFull | src/accsr/remote_storage.py:966-977 | on posix, the push remote path is the full remote path |
| StoragePaths.RemotePath | src/accsr/remote_storage.py:618-623 | the object's name without leading "/": a suffix of the name |
| StoragePaths.RelativeRemotePath | src/accsr/remote_storage.py:625-632 | a suffix of the name that does not start with "/" |
| StoragePaths.RelativeOfFull | src/accsr/remote_storage.py:625-643 | the relative path of an object stored under the full path of `rel` is `rel` without leading "/" |
| StoragePaths.ListedDueToNameCollision | src/accsr/remote_storage.py:646-672 | never a false positive for an empty prefix or one ending in "/"; otherwise a false positive iff the object is neither the file nor inside the directory |
| StoragePaths.NameCollisionIsSiblingPrefix | src/accsr/remote_storage.py:646-672 | for a listed object, a false positive iff the next character after the prefix is not "/" |
| StoragePaths.DestinationPath | src/accsr/remote_storage.py:867-874 | starts with the local base directory and ends with the relative remote path |
| StoragePaths.ShouldSkip | src/accsr/remote_storage.py:1089-1102 | skipped iff the include pattern fails or the exclude pattern matches; exclusion wins; no patterns skip nothing |
| StoragePaths.HandleDeprecatedPathRegex | src/accsr/remote_storage.py:1105-1120 | ValueError iff both patterns are given; otherwise the deprecated one takes the place of a missing include pattern |
| StoragePaths.PullStripPrefix | src/accsr/remote_storage.py:827-833 | ValueError iff an absolute local base directory is to be stripped and a prefix is also given; otherwise the prefix `pull` strips |
| StoragePaths.ResolvePullRemotePathAsWritten | src/accsr/remote_storage.py:827-847 | the source's rule: an absolute path is accepted iff it starts with the prefix as a string, and the result is a suffix of it |
| StoragePaths.ResolvePullCutsSibling | src/accsr/remote_storage.py:841-847 | "/data/foobar/x.txt" with prefix "/data/foo" resolves to "ar/x.txt" |
| StoragePaths.ResolvePullRefusesSibling | src/accsr/remote_storage.py:841-847 | the corrected rule refuses that input with ValueError |
| StoragePaths.ResolvePullRemotePath | src/accsr/remote_storage.py:827-847 | the corrected rule: an absolute path is accepted iff it is the prefix or lies below it |
| StoragePaths.ResolvePullRemotePathInverse | src/accsr/remote_storage.py:841-847 | the corrected rule accepts exactly the paths at or below the prefix, and the prefix re-joined with the result gives the path |
| StoragePaths.RelativeTo | src/accsr/remote_storage.py:1016-1023 | ValueError iff the path is not the prefix and not below it; the prefix re-joined with the result gives the path |
| Planning.PullEntry | src/accsr/remote_storage.py:923-962 | the only error is FileExistsError; an entry never carries a collision, and is skipped iff the object is empty, a false positive or filtered out |
| Planning.PullEntryFacts | src/accsr/remote_storage.py:923-962 | an entry is built iff the object is skipped or its destination is not a directory; it pairs the normalised object with its destination |
| Planning.ScanEntries | src/accsr/remote_storage.py:923-962 | a scan succeeds iff every item's entry can be built, and then gives those entries in order; otherwise it fails with some item's error |
| Planning.PlanPull | src/accsr/remote_storage.py:923-962 | stated by `ScanEntries`, `PullOntoDirectoryFails` and `PullPlanHasNoCollisions`: the per-object entries in listing order, failing with FileExistsError as soon as a kept object lands on a local directory |
| Planning.PullOntoDirectoryFails | src/accsr/remote_storage.py:941-956 | a kept object whose destination is a local directory makes the pull scan fail with FileExistsError |
| Planning.PullPlanHasNoCollisions | src/accsr/remote_storage.py:923-962 | a successful pull scan records no collision |
| Planning.TrueMatches | src/accsr/remote_storage.py:1053-1060 | exactly the listed objects that are not false positives |
| Planning.PushMatches | src/accsr/remote_storage.py:1053-1060 | stated by `PushEntryFacts` and `PushOntoRemoteDirectoryCollides`: the true matches under the file's push remote path; more than one is a collision, exactly one is the counterpart |
| Planning.PushEntry | src/accsr/remote_storage.py:1042-1084 | fails only with FileExistsError or ValueError; skipped iff the filters say so; carries a collision iff more than one true match exists |
| Planning.PushEntryFacts | src/accsr/remote_storage.py:1042-1084 | FileExistsError iff the local path is a directory; with one true match, built iff its name is the remote path; several matches are the collision, a single one the counterpart |
| Planning.PlanPush | src/accsr/remote_storage.py:1028-1038 | no candidate file is a FileNotFoundError |
| Planning.ScanPush | src/accsr/remote_storage.py:1042-1084 | stated by `ScanEntries` and `RemoteStorages.ScanPushFiles`: the per-file entries in candidate order, stopping at the first file whose entry cannot be built |
| Planning.PushOntoRemoteDirectoryCollides | src/accsr/remote_storage.py:1062-1064 | a kept file whose remote path holds several true matches leaves the summary with a collision |
| Planning.PushDescendantOnlyMatchFails | src/accsr/remote_storage.py:1053-1078 | pushing "a" when the bucket holds only "a/b" fails with ValueError |
| Planning.PushMismatchedMatchFails | src/accsr/remote_storage.py:1065-1078 | a single true match with a name other than the remote path makes the push entry fail with ValueError |
| Planning.PushRelativePath | src/accsr/remote_storage.py:1016-1023 | only an absolute path with a non-empty prefix is made relative; anything else is kept as it is |
| Executor.UploadFile | src/accsr/remote_storage.py:566-571 | fails iff the local file is missing; otherwise stores an object with the file's size and hash under the remote path |
| Executor.DownloadFile | src/accsr/remote_storage.py:603-605 | refuses an existing file unless overwriting; otherwise writes the object's size and hash to the local path |
| Executor.ExecuteSync | src/accsr/remote_storage.py:509-615 | equal hashes return the object unchanged; an object on the target without force is a ValueError; a result is valid; push never changes the local side and pull never changes the bucket |
| Executor.PushObject | src/accsr/remote_storage.py:546-583 | a successful upload gives a valid object and leaves the local side alone |
| Executor.PullObject | src/accsr/remote_storage.py:585-611 | a successful download gives a valid object and leaves the bucket alone |
| Executor.ExecuteSyncKeepsName | src/accsr/remote_storage.py:509-615 | a synchronised valid object keeps its name |
| Executor.PushMakesRemoteCurrent | src/accsr/remote_storage.py:546-583 | a push that is not refused stores the file's content under the object's name and reports both sides equal |
| Executor.PullMakesLocalCurrent | src/accsr/remote_storage.py:585-611 | a pull that is not refused writes the object's content to the local path and reports both sides equal |
| Executor.SyncAll | src/accsr/remote_storage.py:766-776 | a run without error synchronises every object; a failed run stops before the end |
| Executor.SyncAllPositions | src/accsr/remote_storage.py:766-776 | each synced object keeps the name of the object at its position, and an up-to-date object comes back unchanged |
| Executor.SyncFromSummary | src/accsr/remote_storage.py:712-777 | a dry run does nothing; a collision, or a required overwrite without force, is a FileExistsError before any transfer; a run without error synchronises every file |
| Executor.SyncFromSummaryPositions | src/accsr/remote_storage.py:756-777 | whatever was synchronised, position by position, is the file to sync there under its own name |
| RemoteStorages.SummaryRun | src/accsr/remote_storage.py:712-777 | stated by `SummaryRunOfValid`, `SummaryRunRefusesCollisions`, `SummaryRunRequiresForce` and `SummaryRunSyncsFilesToSync`: what execution does with the summary an `add_entry` history builds |
| RemoteStorages.SummaryRunOfValid | src/accsr/remote_storage.py:712-777 | for a valid summary, execution depends only on the history of `add_entry` calls |
| RemoteStorages.SummaryRunRefusesCollisions | src/accsr/remote_storage.py:742-747 | a history with a collision fails with FileExistsError and changes nothing |
| RemoteStorages.SummaryRunRequiresForce | src/accsr/remote_storage.py:749-754 | without force, a history with a differing object fails with FileExistsError and changes nothing |
| RemoteStorages.SummaryRunSyncsFilesToSync | src/accsr/remote_storage.py:756-777 | a run without error synchronises every file to sync, each under its own name |
| RemoteStorages.DeletedAreSelected | src/accsr/remote_storage.py:1181-1230 | everything `delete` removes is in the bucket under the full path, and is the file or inside the directory named |
| RemoteStorages.DeleteTargets | src/accsr/remote_storage.py:1213-1229 | stated by `DeletedAreSelected` and `DeleteEach`: the listed objects that are not false positives and pass the include and exclude patterns, in listing order |
| RemoteStorages.ScanPullObjects | src/accsr/remote_storage.py:913-964 | succeeds iff the pull scan does, with its error; a fresh valid pull summary whose history is the scan's entries |
| RemoteStorages.ScanPushFiles | src/accsr/remote_storage.py:1042-1086 | succeeds iff the push scan does, with its error; a fresh valid push summary whose history is the scan's entries |
| RemoteStorages.DeleteEach | src/accsr/remote_storage.py:1212-1229 | deletes exactly the kept objects, in listing order; the bucket loses exactly those objects |
| RemoteStorages.RemoteStorage.constructor | src/accsr/remote_storage.py:421-457 | the configured base path is at once stripped of blanks, then of leading "/", then of blanks, as `set_remote_base_path` does |
| RemoteStorages.RemoteStorage.SetRemoteBasePath | src/accsr/remote_storage.py:484-497 | only the base path changes, to the source's strip, lstrip "/", strip of the argument ("" for None), which keeps the "/" of "/ /a" |
| RemoteStorages.RemoteStorage.GetPullSummary | src/accsr/remote_storage.py:876-964 | succeeds iff the pull plan does; a fresh valid summary of the listing under the full remote path |
| RemoteStorages.RemoteStorage.GetPushSummary | src/accsr/remote_storage.py:979-1086 | succeeds iff the push plan does; a fresh valid summary whose history is the plan |
| RemoteStorages.RemoteStorage.ExecuteSyncFromSummary | src/accsr/remote_storage.py:712-777 | `synced_files` grows by what the run synchronised, and the bucket and files end as the run leaves them, also after a failure part way; the summary's history and direction are untouched, so a valid summary stays valid |
| RemoteStorages.RemoteStorage.SyncFiles | src/accsr/remote_storage.py:766-776 | the loop equals the fold `SyncAll`; the summary keeps its history, its direction and its validity |
| RemoteStorages.RemoteStorage.Pull | src/accsr/remote_storage.py:779-865 | the remote path is cut by the source's raw string-prefix rule; errors of resolution or scan change nothing; otherwise the result is a new summary whose buckets are those of the plan's entries (it is valid), whose direction is pull and whose synced files are those of the run on the plan |
| RemoteStorages.RemoteStorage.Push | src/accsr/remote_storage.py:1122-1179 | errors of the scan change nothing; otherwise the result is a new summary whose buckets are those of the plan's entries (it is valid), whose direction is push and whose synced files are those of the run on the plan |
| RemoteStorages.RemoteStorage.Delete | src/accsr/remote_storage.py:1181-1230 | returns the selected objects of the listing in order, and the bucket loses exactly those |
| LegacyStorage.PushLocalPath | persistence/remote_storage.py:182-214 | ValueError iff a prefix is given and the path is absolute; an absolute path is kept; a relative one is joined under the prefix |
| LegacyStorage.PushLocalPathExamples | persistence/remote_storage.py:188-199 | the four documented usage examples |
| LegacyStorage.PushRemotePath | persistence/remote_storage.py:216-223 | stated by `PushRemotePathPlain` and `PushRemotePathSlashes`: the base and the local path joined by "/", with each doubled slash collapsed |
| LegacyStorage.PushRemotePathPlain | persistence/remote_storage.py:216-223 | without a doubled slash, the remote path is the plain join |
| LegacyStorage.PushRemotePathSlashes | persistence/remote_storage.py:216-223 | a base ending in "/" is not doubled, and an empty base keeps one leading "/" |
| LegacyStorage.PullFileOutcome | persistence/remote_storage.py:43-74 | an existing file is kept unless overwriting; ObjectDoesNotExist iff no object has the name `base/path`; FileNotFoundError iff there is one but the download path has no directory part; an error writes nothing; otherwise the object is written and the directories above it exist |
| LegacyStorage.PullBareNameFails | persistence/remote_storage.py:62-71 | "x.txt" under base "data", pulled without a local base directory, is fetched and then fails with FileNotFoundError |
| LegacyStorage.PullFile | persistence/remote_storage.py:43-74 | stated by `PullFileOutcome`: the kept file, ObjectDoesNotExist and FileNotFoundError cases, each as an iff, and the written object with its directories on success |
| LegacyStorage.RelativeNameRoundTrip | persistence/remote_storage.py:92-102 | a listed name is `base/` followed by the relative name `pull_file` receives |
| LegacyStorage.PullEach | persistence/remote_storage.py:92-110 | stated by `PullEachFromBucket` and `LegacyRemoteStorage.PullEachInto`: `pull_file` of each listed object in turn, collecting what was pulled, stopping at the first error |
| LegacyStorage.PullDirectory | persistence/remote_storage.py:76-110 | stated by `PullDirectoryFromBucket` and `PullDirectorySkipsExisting`: nothing for an empty listing, else at most the listed objects, all from the bucket |
| LegacyStorage.PullEachFromBucket | persistence/remote_storage.py:92-110 | the loop returns at most one object per listed object, each an object of the bucket |
| LegacyStorage.PullDirectoryFromBucket | persistence/remote_storage.py:76-110 | `pull_directory` returns at most the listed objects, each from the bucket |
| LegacyStorage.PullDirectorySkipsExisting | persistence/remote_storage.py:76-110 | when every local target exists and nothing is overwritten, nothing is downloaded and nothing changes |
| LegacyStorage.PullDispatch | persistence/remote_storage.py:112-141 | a name the bucket holds is pulled as that single object (or nothing, for a kept file, or FileNotFoundError for a download path without directory); a path no object has is pulled as a directory |
| LegacyStorage.PullPath | persistence/remote_storage.py:112-141 | stated by `PullDispatch`: the single object when the name exists, the directory only after ObjectDoesNotExist, any other error passed on |
| LegacyStorage.PushFile | persistence/remote_storage.py:225-258 | an error leaves the bucket alone and is one of three: ValueError iff the local path cannot be formed, FileNotFoundError iff it is not a file, RuntimeError iff something is listed under the remote path and overwriting is off; success uploads the file's content under its remote path |
| LegacyStorage.PushFileStores | persistence/remote_storage.py:225-258 | after a push the remote path holds the file, and no other name changes |
| LegacyStorage.PushFileBlockedByLongerName | persistence/remote_storage.py:250-254 | an object whose name only extends the remote path also blocks the push |
| LegacyStorage.LegacyRemoteStorage.constructor | persistence/remote_storage.py:22-25 | the base path, bucket and local files given |
| LegacyStorage.LegacyRemoteStorage.PullFileInto | persistence/remote_storage.py:43-74 | result and new local files are those of `PullFile`, including its FileNotFoundError for a path without directory |
| LegacyStorage.LegacyRemoteStorage.PullDirectoryInto | persistence/remote_storage.py:76-110 | result and new local files are those of `PullDirectory`, which stops at the first error of a `pull_file` |
| LegacyStorage.LegacyRemoteStorage.PullEachInto | persistence/remote_storage.py:92-110 | the loop equals the fold `PullEach` |
| LegacyStorage.LegacyRemoteStorage.PullInto | persistence/remote_storage.py:112-141 | result and new local files are those of `PullPath`: the directory is tried only after ObjectDoesNotExist, any other error propagates |
| LegacyStorage.LegacyRemoteStorage.PushFileFrom | persistence/remote_storage.py:225-258 | result and new bucket are those of `PushFile` |
| Configs.RecursiveDictUpdate | src/accsr/config.py:46-57 | the in-place loop equals the merge function |
| Configs.Get | src/accsr/config.py:54 | a value iff the key is present |
| Configs.Put | src/accsr/config.py:54-56 | the key then holds the value, other keys keep theirs, keys stay unique, and a new key is appended |
| Configs.Merge | src/accsr/config.py:46-57 | stated by `MergeKeys`, `MergeKeepsOthers`, `MergeAt`, `MergeDisjoint` and `RecursiveDictUpdate`: the items of `u` merged into `d` in order |
| Configs.MergeValue | src/accsr/config.py:53-56 | stated by `MergeOverwrites`, `MergeNested` and `MergeValueFresh`: non-dict values overwrite, dict values merge into the prior dict or `{}` |
| Configs.MergeKeys | src/accsr/config.py:46-57 | a merge keeps the keys of `d`, adds those of `u`, and never repeats one |
| Configs.MergeKeepsOthers | src/accsr/config.py:46-57 | keys `u` does not mention keep their value |
| Configs.MergeAt | src/accsr/config.py:52-56 | each key of `u` ends up with its merged value |
| Configs.MergeOverwrites | src/accsr/config.py:55-56 | non-dict values of `u` overwrite `d` |
| Configs.MergeNested | src/accsr/config.py:53-54 | dict values of `u` are merged into dict values of `d` |
| Configs.MergeValueFresh | src/accsr/config.py:53-54 | a value merged under a missing key is stored unchanged |
| Configs.MergeDisjoint | src/accsr/config.py:46-57 | merging a dict into one with none of its keys appends it unchanged |
| Configs.Getenv | src/accsr/config.py:64 | None iff the variable is unset, its value otherwise |
| Configs.EnvVarNameAsWritten | src/accsr/config.py:63 | the source's reading: never starts with a character of the marker |
| Configs.EnvVarNameStripsTooMuch | src/accsr/config.py:63 | "env:vendor" is read as "dor" instead of "vendor" |
| Configs.EnvVarName | src/accsr/config.py:62-63 | the corrected reading: the marker followed by the name gives the string back |
| Configs.EnvVarNameRoundTrip | src/accsr/config.py:62-63 | marking a name and reading it back gives the name |
| Configs.EnvVarNameAgreement | src/accsr/config.py:63 | both readings agree iff the name does not start with a character of the marker |
| Configs.SubstituteString | src/accsr/config.py:73-75 | an unmarked string is kept; a marked one becomes the environment variable its `lstrip` reading names |
| Configs.SubstituteMarked | src/accsr/config.py:63-64 | a marked name is looked up without its leading marker characters, so as the name after the marker exactly when that does not begin with e, n, v or ":" |
| Configs.SubstituteStripsTooMuch | src/accsr/config.py:73-75 | the entry "env:vendor" becomes the variable "dor" |
| Configs.ReplaceEnvVars | src/accsr/config.py:60-66 | keys and order are kept; each value is replaced, strings by the variable of their `lstrip` reading |
| Configs.ReplaceEnvVarsInPlace | src/accsr/config.py:60-66 | the in-place loop, which writes back only marked strings and dicts, equals `ReplaceEnvVars` |
| Configs.ReplacedValue | src/accsr/config.py:61-66 | stated by `ReplacedValueMarkerFree` and `ReplaceEnvVars`: marked strings substituted by their `lstrip` reading, dicts recursed into, anything else kept |
| Configs.ReplacedValueMarkerFree | src/accsr/config.py:60-66 | a value mentioning no variable is left unchanged |
| Configs.SubstituteMarkerFree | src/accsr/config.py:69-81 | an entry mentioning no variable is returned unchanged |
| Configs.SubstituteEntry | src/accsr/config.py:69-81 | stated by `SubstituteMarkerFree` and `SubstituteListsOnlyAtTop`: a marked string or a dict substituted as above, a list element-wise, anything else kept |
| Configs.SubstituteListsOnlyAtTop | src/accsr/config.py:76-80 | a marked string in a list is substituted, by the variable named after its leading marker characters are removed, when the list is the entry, but not when it sits inside a dict |
| Configs.ConfigReader | src/accsr/config.py:84-96 | YAML iff the name ends in .yaml or .yml; JSON iff it instead ends in .json; ValueError otherwise |
| Configs.LoadConfig | src/accsr/config.py:107-141 | a loaded configuration is never empty |
| Configs.LayerStops | src/accsr/config.py:129-136 | once a file fails, later files are never read |
| Configs.LaterFileWins | src/accsr/config.py:118-136 | a non-dict entry of the last file overrides all earlier files |
| Configs.UnsupportedNameFails | src/accsr/config.py:131 | an unsupported file name fails the load, whether or not the file exists |
| Configs.NoFileFound | src/accsr/config.py:137-141 | when no file exists, loading fails with FileNotFoundError |
| Configs.SingleFile | src/accsr/config.py:129-141 | a single existing file yields exactly its content |
| Configs.KeyPath | src/accsr/config.py:156-157 | a single key is a one-element key list |
| Configs.Lookup | src/accsr/config.py:158-162 | a found value is never null; the errors are KeyError and AttributeError |
| Configs.LookupConcat | src/accsr/config.py:159-162 | walking `p + q` is walking `p`, then `q` |
| Configs.LookupOneKey | src/accsr/config.py:160-162 | one step succeeds iff the key is present and not null, and gives its value |
| Configs.ReadLayer | src/accsr/config.py:130-136 | one pass of the loop equals `AddLayer` |
| Configs.AddLayer | src/accsr/config.py:130-136 | stated by `ReadLayer` and `UnsupportedNameFails`: the reader is chosen first, a missing file is skipped, an existing one is merged in |
| Configs.Layer | src/accsr/config.py:129-136 | stated by `LayerFiles`, `LayerStops` and `LaterFileWins`: the files merged left to right, later files winning, stopping at the first failure |
| Configs.LayerFiles | src/accsr/config.py:129-136 | the loop equals `Layer` |
| Configs.Configuration.Load | src/accsr/config.py:107-141 | succeeds iff `LoadConfig` does, with its error or its configuration |
| Configs.Configuration.GetNonEmptyEntry | src/accsr/config.py:147-163 | the walk along the keys with its error, then substitution with the `lstrip` reading, so a marked entry whose variable is unset gives null; the configuration itself is unchanged |
| Configs.UnsetVariableGivesNull | src/accsr/config.py:159-163 | an entry that names an unset variable passes the walk and is substituted by null |
| Configs.UnsetVariableScenario | tests/accsr/test_config.py:51-55 | `empty_env_var_entry`, naming the unset THIS_EXISTS_NOT, is returned as null instead of raising KeyError |
| Configs.NonEmptyEntry | src/accsr/config.py:147-163 | the corrected lookup: a success is never null; the errors are KeyError and AttributeError |
| Configs.NonEmptyEntryRefusesUnset | tests/accsr/test_config.py:51-55 | an entry naming an unset variable is KeyError |
| Configs.NonEmptyEntryAgrees | src/accsr/config.py:147-163 | the corrected lookup agrees with the source on every error and every non-null value; only a null substitution becomes KeyError |
| Configs.ConfigProvider.constructor | src/accsr/config.py:325-333 | no instance and no stored arguments |
| Configs.ConfigProvider.ShouldUpdate | src/accsr/config.py:335-341 | stated by `GetConfigAsWritten` and `GetConfig`: a new instance is built iff there is none, `reload` is set or the arguments differ from the stored ones; otherwise the cached instance is returned unchanged |
| Configs.ConfigProvider.GetConfigAsWritten | src/accsr/config.py:343-357 | the arguments are stored before construction, so a failed construction leaves the old instance under the new arguments |
| Configs.ConfigProvider.GetConfig | src/accsr/config.py:343-357 | the corrected provider: the stored arguments are always those of the cached instance, and a returned instance was built from the arguments asked for |
| Configs.StaleInstanceScenario | src/accsr/config.py:353-357 | a good load, a failing load, then the same failing arguments again: the third call returns the first instance under other arguments |
| PyStrings.Dirname | src/accsr/loading.py:38 | empty iff the path has no "/"; a prefix of the path, no longer than its part before the last "/" |
| PyStrings.LStrip | src/accsr/remote_storage.py:643 | a suffix of the string made by dropping only characters of the set, and not starting with one of them |
| PyStrings.RStrip | src/accsr/remote_storage.py:840 | a prefix of the string made by dropping only characters of the set, and not ending with one of them |
| PyStrings.Strip | src/accsr/remote_storage.py:496-497 | no longer than the string, and neither starting nor ending with a character of the set |
| PyStrings.PathJoin | src/accsr/remote_storage.py:874 | an absolute second part replaces the first; otherwise the result starts with the first part and ends with the second |
| PyStrings.Replace | persistence/remote_storage.py:223 | stated by `ReplaceAbsent`: a string without an occurrence of the pattern is unchanged |
| SyncObjects.MakeDirs | src/accsr/loading.py:38 | files are unchanged; the directory and its ancestors are added |
| Loading.DownloadFileAsWritten | src/accsr/loading.py:16-53 | an existing output without overwrite is FileExistsError; otherwise FileNotFoundError iff the output has no directory part (`makedirs("")`), IsADirectoryError iff it has one and is an existing directory; success iff it has one and is not a directory, storing the content after creating the directories |
| Loading.BareNameDownloadFails | src/accsr/loading.py:38 | "data.bin" cannot be downloaded even with overwrite: FileNotFoundError |
| Loading.DownloadFile | src/accsr/loading.py:16-53 | the corrected download: fails iff the output exists and overwrite is off (FileExistsError) or the output is an existing directory (IsADirectoryError); otherwise the content is stored and the parent directory exists |
| Loading.DownloadFileAgrees | src/accsr/loading.py:32-38 | wherever the source succeeds, the corrected download does the same |
| Loading.DownloadThenRefused | src/accsr/loading.py:32-36 | a second download without overwrite is refused |
| Loading.DownloadOverwriteLastWins | src/accsr/loading.py:32-53 | two overwriting downloads onto a path that is not a directory and does not end in "/" leave the second content; onto a directory, the download is IsADirectoryError |
| Loading.Matches | src/accsr/loading.py:74-75 | exactly the member names the expression matches |
| Loading.MatchesConcat | src/accsr/loading.py:74-75 | the filter keeps archive order |
| Loading.OpenByRegex | src/accsr/loading.py:56-83 | opens iff exactly one name matches, and then a matching name; ValueError otherwise |
| Loading.OneMatchIff | src/accsr/loading.py:76-80 | exactly one filtered name iff exactly one matching position, and then that is the name |
| Loading.OpenByRegexUnique | src/accsr/loading.py:74-80 | opens iff one member position matches, and then opens that member |
| Loading.DefaultPatternNeedsOneMember | src/accsr/loading.py:58 | with the default pattern, only an archive of one member can be opened |
| Loading.MatchAllKeepsAll | src/accsr/loading.py:58-75 | the default pattern keeps every name |
| Loading.SampleArchiveSelection | tests/accsr/test_loading.py:42-56 | with the sample archive, "sample" and "noresult" are ValueError and "sample_" opens "sample_2.txt" |
| Loading.OpenByNameOrIndex | src/data_access/loading.py:49-81 | both or neither argument is ValueError; an index opens iff 1 <= index <= the count (IndexError otherwise), giving that 1-based member; a name opens iff it is a member (FileNotFoundError otherwise) |
| Loading.IndexThenName | src/data_access/loading.py:69-77 | a member opened by index opens by its name too |
| Loading.NameThenIndex | src/data_access/loading.py:69-77 | a member opened by name opens by some 1-based index too |
| Loading.RegexAgreesWithName | src/data_access/loading.py:76-77 | without repeated names, the exact-name expression opens iff opening by that name does, and opens that name |

## Left out

- The absolute paths `os.path.abspath` makes, and the working directory. The local file system is a snapshot keyed by the paths the planner sees; separators are posix.
- `glob.glob` and `os.walk` of the push scan. They are a caller-supplied function `Glob` from the path to the candidate files.
- The network and the storage driver. The bucket is the sequence of its objects, and listing is by string prefix as real backends do. Driver construction, `create_bucket`, `add_extra_to_upload` and upload metadata are not part of this model.
- md5 hashing. A local file's hash is recorded with the file instead of computed.
- Logging, the progress bars and `_readable_size`. These have no effect on results.
- YAML and JSON parsing. A parsed file is given per path as a JSON value; numbers are integers, not floats.
- Python dict aliasing and in-place mutation of nested dicts. Dicts are values: the merge and the substitution return a new dict that equals what the source leaves in place.
- The `*args, **kwargs` of `get_config`. They are a `ConfigArgs` value of directory and file list.
- The default configuration directory, taken from the module of the configuration class through `inspect`.
- `_get_existing_path` and `_adjusted_path`, which create directories.
- `_execute_sync` with an unknown direction string. `Direction` has only Push and Pull, so that case cannot arise.
- `push_directory` and `push` of persistence/remote_storage.py. They walk the local file system, which the model does not have; their per-file step `push_file` is modelled.
- Tar extraction in both `open_file_in_tar` variants: an archive is its list of member names, and the result is the name of the member opened, not its content.
- The HTTP transfer of `download_file` and its headers. The downloaded content is a parameter.
- Regular expressions. A compiled pattern is the predicate its `match` computes, and only literal patterns are given a definition (`Literal`).
- `to_dict` and the JSON encoder of `TransactionSummary`.
- Loading.DownloadFile, Loading.DownloadFileAsWritten: an `os.makedirs` that fails because a path component is a regular file is not modelled; the directories are simply added. An output ending in "/" is not refused as `open` would refuse it. The directories `os.makedirs` creates before IsADirectoryError is raised are not recorded, because an error returns no file system.
- LegacyStorage.PullFile: an `os.makedirs` that fails because a path component is a regular file is not modelled, nor what libcloud's `download` does when the download path is an existing directory; the file is simply written.
- RemoteStorages.RemoteStorage.Push: the candidate files `Glob` returns are not required to be files of the snapshot, although `glob.glob` with `os.walk` yields only files (src/accsr/remote_storage.py:1029-1034); the push scan is thus also modelled over candidates the source never produces.
- Executor.PullObject: the `os.makedirs` of the destination's directory before the download (src/accsr/remote_storage.py:596) does not add directories to the snapshot.
- Loading.RegexAgreesWithName: states the agreement on success only. The error kinds differ: ValueError from the expression, FileNotFoundError from the name.
- `list_objects` of `RemoteStorage` (src/accsr/remote_storage.py:1232-1238) is `Buckets.ListObjects` under the full remote path; it has no member of its own.

## Findings

| source | as written | input that shows it | evidently intended | confidence | as-written member | corrected member |
|---|---|---|---|---|---|---|
| src/accsr/config.py:63 | `v.lstrip("env:")` removes any leading run of the characters e, n, v and ":", not the prefix "env:" | "env:vendor" looks up the variable "dor" | the variable named by what follows "env:" ("vendor") | high (not executed) | Configs.EnvVarNameAsWritten, Configs.EnvVarNameStripsTooMuch, Configs.SubstituteStripsTooMuch | Configs.EnvVarName |
| src/accsr/remote_storage.py:492-497 | blanks are stripped, then "/", then blanks again, so a "/" after a blank survives | `set_remote_base_path("/ /a")` sets "/a" | no base path that starts with "/", as the comment above the code demands | medium (not executed) | StoragePaths.NormalizeBasePathAsWritten, StoragePaths.NormalizeBasePathLeavesSlash | StoragePaths.NormalizeBasePath |
| src/accsr/remote_storage.py:841-847 | the absolute remote path is compared by a raw string `startswith` against the prefix, then cut one character past it | "/data/foobar/x.txt" with prefix "/data/foo" becomes "ar/x.txt" | only paths at or below the prefix directory are accepted | high (not executed) | StoragePaths.ResolvePullRemotePathAsWritten, StoragePaths.ResolvePullCutsSibling | StoragePaths.ResolvePullRemotePath |
| src/accsr/config.py:353-357 | the arguments are stored before the configuration constructor runs | a good load, then a load that raises with new arguments, then those arguments again: the third call returns the first instance | the cached instance is always the one built from the stored arguments | high (not executed) | Configs.ConfigProvider.GetConfigAsWritten, Configs.StaleInstanceScenario | Configs.ConfigProvider.GetConfig |
| src/accsr/loading.py:38 | `os.makedirs(os.path.dirname(output_file))` runs also when the directory name is "" (as in src/data_access/loading.py:36) | `download_file(url, "data.bin")` raises FileNotFoundError | a bare file name is written to the working directory | high (not executed) | Loading.DownloadFileAsWritten, Loading.BareNameDownloadFails | Loading.DownloadFile |
| src/accsr/config.py:159-163 | null is refused only during the walk along the keys; the value substituted afterwards, `os.getenv` of the variable, may be None and is returned | the entry "env:THIS_EXISTS_NOT" with that variable unset is returned as None (tests/accsr/test_config.py:51-55 expects KeyError) | KeyError, as the method's name and that test promise | medium (not executed) | Configs.Configuration.GetNonEmptyEntry, Configs.UnsetVariableGivesNull, Configs.UnsetVariableScenario | Configs.NonEmptyEntry |
