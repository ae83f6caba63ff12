/**
 * The `RemoteStorage` class of src/accsr/remote_storage.py: its remote base
 * path, the scan loops that build a `TransactionSummary`, the loop that
 * executes one, `pull`, `push` and `delete`. The backend bucket is a field
 * of the storage (the sequence of its objects), the local file system a
 * snapshot passed in and handed back; the glob expansion of the push path is
 * a function supplied by the caller.
 */
module RemoteStorages {
  import opened Wrappers
  import opened PyStrings
  import opened SyncObjects
  import opened Summaries
  import opened StoragePaths
  import opened Buckets
  import opened Planning
  import opened Executor

  /** `glob.glob(path)` followed by the `os.walk` of every directory found: the candidate files of a push. */
  type Glob = string -> seq<string>

  /**
   * What `_execute_sync_from_summary` does with the summary the history `es` built,
   * read through the derived properties of `TransactionSummary`.
   */
  function SummaryRun(es: seq<Entry>, direction: Direction, env: Env, dryrun: bool, force: bool, extractor: HashExtractor)
    : SyncRun
  {
    var files := Select(es, NotOnTarget) + Select(es, OnTargetDifferent);
    SyncFromSummary(files, |Collisions(es)| != 0, |Select(es, OnTargetDifferent)| != 0, SumBytes(files),
      Some(direction), env, dryrun, force, extractor)
  }

  /** For a valid summary, what `_execute_sync_from_summary` reads is what its history determines. */
  lemma SummaryRunOfValid(summary: TransactionSummary, direction: Direction, env: Env, dryrun: bool, force: bool, extractor: HashExtractor)
    requires summary.Valid() && summary.syncDirection == Some(direction)
    ensures SyncFromSummary(summary.FilesToSync(), summary.HasUnresolvableCollisions(), summary.RequiresForce(),
      summary.SizeFilesToSync(), summary.syncDirection, env, dryrun, force, extractor)
      == SummaryRun(summary.entries, direction, env, dryrun, force, extractor)
  {
  }

  /**
   * A history with a collision is never executed: outside a dry run it fails with
   * FileExistsError before anything is synchronised, and the environment is left alone.
   */
  lemma SummaryRunRefusesCollisions(es: seq<Entry>, i: nat, direction: Direction, env: Env, force: bool, extractor: HashExtractor)
    requires i < |es| && Classify(es[i]) == Collided
    ensures SummaryRun(es, direction, env, false, force, extractor) == SyncRun([], env, Some(FileExistsError))
  {
    CollisionsNonEmpty(es);
  }

  /**
   * A history in which some object differs on the target is, without force and outside
   * a dry run, refused with FileExistsError before anything is synchronised.
   */
  lemma SummaryRunRequiresForce(es: seq<Entry>, i: nat, direction: Direction, env: Env, extractor: HashExtractor)
    requires i < |es| && Classify(es[i]) == OnTargetDifferent
    ensures SummaryRun(es, direction, env, false, false, extractor).error == Some(FileExistsError)
    ensures SummaryRun(es, direction, env, false, false, extractor).synced == []
    ensures SummaryRun(es, direction, env, false, false, extractor).env == env
  {
    SelectNonEmpty(es, OnTargetDifferent);
  }

  /**
   * A run of a history of valid objects that did not fail synchronised every file to
   * sync (the missing ones, then the differing ones), each under its own name.
   */
  lemma SummaryRunSyncsFilesToSync(es: seq<Entry>, direction: Direction, env: Env, force: bool, extractor: HashExtractor)
    requires forall i :: 0 <= i < |es| ==> es[i].obj.Valid()
    ensures var run, files := SummaryRun(es, direction, env, false, force, extractor),
        Select(es, NotOnTarget) + Select(es, OnTargetDifferent);
      && (run.error.None? ==> |run.synced| == |files|)
      && forall k :: 0 <= k < |run.synced| ==> run.synced[k].Name() == files[k].Name()
  {
    var files := Select(es, NotOnTarget) + Select(es, OnTargetDifferent);
    forall k | 0 <= k < |files| ensures files[k].Valid() {
      var o := files[k];
      if k < |Select(es, NotOnTarget)| {
        SelectMembers(es, NotOnTarget, o);
      } else {
        SelectMembers(es, OnTargetDifferent, o);
      }
    }
    SyncFromSummaryPositions(files, |Collisions(es)| != 0, |Select(es, OnTargetDifferent)| != 0, SumBytes(files),
      Some(direction), env, false, force, extractor);
  }

  /** `delete` keeps an object of the listing: it is not a false positive and passes the patterns. */
  predicate Deletable(base: string, full: string, o: RemoteObject, includeRegex: Option<Regex>, excludeRegex: Option<Regex>) {
    !ListedDueToNameCollision(full, o) && !ShouldSkip(RelativeRemotePath(base, o), includeRegex, excludeRegex)
  }

  /** The objects of a listing that `keep` accepts, in listing order. */
  function Filter(objs: seq<RemoteObject>, keep: RemoteObject -> bool): seq<RemoteObject> {
    if objs == [] then []
    else Filter(objs[..|objs| - 1], keep) + (if keep(objs[|objs| - 1]) then [objs[|objs| - 1]] else [])
  }

  /** The loop of a filter, one object at a time. */
  lemma FilterStep(objs: seq<RemoteObject>, keep: RemoteObject -> bool, i: nat)
    requires i < |objs|
    ensures Filter(objs[..i + 1], keep) == Filter(objs[..i], keep) + (if keep(objs[i]) then [objs[i]] else [])
  {
    assert objs[..i + 1][..i] == objs[..i];
  }

  /** A filter keeps each accepted object as often as it is listed, and nothing else. */
  lemma {:induction false} FilterMembers(objs: seq<RemoteObject>, keep: RemoteObject -> bool)
    ensures var r := Filter(objs, keep);
      && |r| <= |objs| && multiset(r) <= multiset(objs)
      && forall o :: o in r <==> o in objs && keep(o)
  {
    if objs != [] {
      var init, o := objs[..|objs| - 1], objs[|objs| - 1];
      assert objs == init + [o];
      FilterMembers(init, keep);
    }
  }

  /** The objects `delete` removes from a listing, in listing order. */
  function DeleteTargets(base: string, full: string, objs: seq<RemoteObject>, includeRegex: Option<Regex>, excludeRegex: Option<Regex>)
    : seq<RemoteObject>
  {
    Filter(objs, o => Deletable(base, full, o, includeRegex, excludeRegex))
  }

  /**
   * `delete` never removes an object outside the selection: what it deletes lies under
   * the full remote path, and is the file or inside the directory it names unless that
   * path is empty or ends with "/".
   */
  lemma DeletedAreSelected(base: string, full: string, bucket: Bucket, includeRegex: Option<Regex>, excludeRegex: Option<Regex>, o: RemoteObject)
    requires o in DeleteTargets(base, full, ListObjects(bucket, full), includeRegex, excludeRegex)
    ensures o in bucket && StartsWith(o.name, full)
    ensures full != [] && !EndsWith(full, "/") ==> InSelection(RemotePath(o), LStrip(full, Slash))
  {
    FilterMembers(ListObjects(bucket, full), o => Deletable(base, full, o, includeRegex, excludeRegex));
  }

  /**
   * The scan loop of `_get_pull_summary`: a fresh pull summary into which the entry of
   * every object was added in order; the first entry that cannot be built aborts the scan.
   */
  method ScanPullObjects(sc: PullScope, objs: seq<RemoteObject>) returns (r: Result<TransactionSummary>)
    ensures r.Ok? <==> PlanPull(sc, objs).Ok?
    ensures r.Err? ==> r.error == PlanPull(sc, objs).error
    ensures r.Ok? ==>
      && fresh(r.value) && r.value.Valid() && r.value.entries == PlanPull(sc, objs).value
      && r.value.syncDirection == Some(Pull) && r.value.syncedFiles == []
  {
    var summary := new TransactionSummary(Some(Pull));
    var i := 0;
    while i < |objs|
      invariant 0 <= i <= |objs|
      invariant fresh(summary) && summary.Valid()
      invariant summary.syncDirection == Some(Pull) && summary.syncedFiles == []
      invariant PlanPull(sc, objs[..i]) == Ok(summary.entries)
    {
      PlanPullStep(sc, objs, i);
      var e := PullEntry(sc, objs[i]);
      if e.Err? {
        PlanPullStops(sc, objs, i + 1);
        return Err(e.error);
      }
      summary.AddEntry(e.value.obj, e.value.collidesWith, e.value.skip);
      i := i + 1;
    }
    assert objs[..i] == objs;
    return Ok(summary);
  }

  /**
   * The scan loop of `_get_push_summary`: a fresh push summary into which the entry of
   * every file was added in order; the first entry that cannot be built aborts the scan.
   */
  method ScanPushFiles(sc: PushScope, files: seq<string>) returns (r: Result<TransactionSummary>)
    ensures r.Ok? <==> ScanPush(sc, files).Ok?
    ensures r.Err? ==> r.error == ScanPush(sc, files).error
    ensures r.Ok? ==>
      && fresh(r.value) && r.value.Valid() && r.value.entries == ScanPush(sc, files).value
      && r.value.syncDirection == Some(Push) && r.value.syncedFiles == []
  {
    var summary := new TransactionSummary(Some(Push));
    var i := 0;
    while i < |files|
      invariant 0 <= i <= |files|
      invariant fresh(summary) && summary.Valid()
      invariant summary.syncDirection == Some(Push) && summary.syncedFiles == []
      invariant ScanPush(sc, files[..i]) == Ok(summary.entries)
    {
      ScanPushStep(sc, files, i);
      var e := PushEntry(sc, files[i]);
      if e.Err? {
        ScanPushStops(sc, files, i + 1);
        return Err(e.error);
      }
      summary.AddEntry(e.value.obj, e.value.collidesWith, e.value.skip);
      i := i + 1;
    }
    assert files[..i] == files;
    return Ok(summary);
  }

  /** Deleting the next listed object leaves the rest of the listing in the bucket. */
  lemma DeleteStep(b: multiset<RemoteObject>, o: RemoteObject, rest: seq<RemoteObject>)
    requires multiset([o] + rest) <= b
    ensures o in b && multiset(rest) <= b && multiset(rest) <= b - multiset{o}
  {
    assert multiset([o] + rest) == multiset{o} + multiset(rest);
  }

  /** Deleting a listed object from the bucket moves it from the bucket's side to the deleted side. */
  lemma DeleteKeeps(bucket: Bucket, bucket': Bucket, deleted: seq<RemoteObject>, bucket0: Bucket, o: RemoteObject, rest: seq<RemoteObject>)
    requires multiset(bucket) + multiset(deleted) == multiset(bucket0)
    requires multiset([o] + rest) <= multiset(bucket)
    requires multiset(bucket') == multiset(bucket) - multiset{o}
    ensures multiset(bucket') + multiset(deleted + [o]) == multiset(bucket0)
    ensures multiset(rest) <= multiset(bucket')
  {
    assert multiset([o] + rest) == multiset{o} + multiset(rest);
    assert multiset(deleted + [o]) == multiset(deleted) + multiset{o};
  }

  /** What is left of a whole once a part is taken away. */
  lemma MultisetDifference(rest: multiset<RemoteObject>, part: multiset<RemoteObject>, whole: multiset<RemoteObject>)
    requires rest + part == whole
    ensures rest == whole - part
  {
  }

  /** One iteration of the loop of `delete`: a kept object moves from the bucket to the deleted ones. */
  method DeleteIfKept(bucket0: Bucket, bucket: Bucket, deleted: seq<RemoteObject>, o: RemoteObject, rest: seq<RemoteObject>,
    keep: RemoteObject -> bool)
    returns (bucket': Bucket, deleted': seq<RemoteObject>)
    requires multiset(bucket) + multiset(deleted) == multiset(bucket0)
    requires |bucket| + |deleted| == |bucket0|
    requires multiset([o] + rest) <= multiset(bucket)
    ensures deleted' == deleted + (if keep(o) then [o] else [])
    ensures multiset(bucket') + multiset(deleted') == multiset(bucket0)
    ensures |bucket'| + |deleted'| == |bucket0|
    ensures multiset(rest) <= multiset(bucket')
  {
    DeleteStep(multiset(bucket), o, rest);
    if keep(o) {
      var res := DeleteObject(bucket, o);
      DeleteKeeps(bucket, res.value, deleted, bucket0, o, rest);
      return res.value, deleted + [o];
    }
    return bucket, deleted;
  }

  /**
   * The loop of `delete`: each listed object that is kept is deleted from the bucket and
   * collected, in listing order.
   */
  method DeleteEach(bucket: Bucket, objs: seq<RemoteObject>, keep: RemoteObject -> bool)
    returns (remaining: Bucket, deleted: seq<RemoteObject>)
    requires multiset(objs) <= multiset(bucket)
    ensures deleted == Filter(objs, keep)
    ensures multiset(remaining) == multiset(bucket) - multiset(deleted)
    ensures |remaining| == |bucket| - |deleted|
  {
    remaining, deleted := bucket, [];
    var i := 0;
    assert objs[i..] == objs;
    while i < |objs|
      invariant 0 <= i <= |objs|
      invariant deleted == Filter(objs[..i], keep)
      invariant multiset(remaining) + multiset(deleted) == multiset(bucket)
      invariant |remaining| + |deleted| == |bucket|
      invariant multiset(objs[i..]) <= multiset(remaining)
    {
      FilterStep(objs, keep, i);
      assert objs[i..] == [objs[i]] + objs[i + 1..];
      remaining, deleted := DeleteIfKept(bucket, remaining, deleted, objs[i], objs[i + 1..], keep);
      i := i + 1;
    }
    assert objs[..i] == objs;
    MultisetDifference(multiset(remaining), multiset(deleted), multiset(bucket));
  }

  class RemoteStorage {
    /** `_remote_base_path`, as `set_remote_base_path` leaves it. */
    var remoteBasePath: string
    /** The objects of `self.bucket`, in listing order. */
    var bucket: Bucket
    const remoteHashExtractor: HashExtractor

    /** `RemoteStorage(conf, remote_hash_extractor)`: the configured base path is normalised at once. */
    constructor (basePath: Option<string>, objects: Bucket, extractor: HashExtractor)
      ensures remoteBasePath == NormalizeBasePathAsWritten(basePath)
      ensures bucket == objects && remoteHashExtractor == extractor
    {
      remoteBasePath := NormalizeBasePathAsWritten(basePath);
      bucket := objects;
      remoteHashExtractor := extractor;
    }

    /**
     * `set_remote_base_path`: only the base path changes, to the blanks-and-slash
     * stripped form (which keeps a "/" that follows a blank, see `NormalizeBasePathLeavesSlash`).
     */
    method SetRemoteBasePath(path: Option<string>)
      modifies this`remoteBasePath
      ensures remoteBasePath == NormalizeBasePathAsWritten(path)
    {
      remoteBasePath := NormalizeBasePathAsWritten(path);
    }

    /** The inputs of the pull scan: the remote path with linux separators, made full. */
    function PullScopeOf(remotePath: string, localBaseDir: string, includeRegex: Option<Regex>, excludeRegex: Option<Regex>,
      convertToLinuxPath: bool, fs: LocalFs): PullScope
      reads this
    {
      var rp := if convertToLinuxPath then ToLinuxPath(remotePath) else remotePath;
      PullScope(fs, remoteBasePath, localBaseDir, FullRemotePath(remoteBasePath, rp), includeRegex, excludeRegex, remoteHashExtractor)
    }

    /** The history `_get_pull_summary` feeds to `add_entry`, or the error that aborts it. */
    function PullPlan(remotePath: string, localBaseDir: string, includeRegex: Option<Regex>, excludeRegex: Option<Regex>,
      convertToLinuxPath: bool, pathRegex: Option<Regex>, fs: LocalFs): Result<seq<Entry>>
      reads this
    {
      var inc := HandleDeprecatedPathRegex(includeRegex, pathRegex);
      if inc.Err? then Err(inc.error)
      else
        var sc := PullScopeOf(remotePath, localBaseDir, inc.value, excludeRegex, convertToLinuxPath, fs);
        PlanPull(sc, ListObjects(bucket, sc.full))
    }

    /**
     * `_get_pull_summary`: a fresh pull summary into which every listed object under the
     * full remote path was entered, in listing order; the first error aborts the scan.
     */
    method GetPullSummary(remotePath: string, localBaseDir: string, includeRegex: Option<Regex>, excludeRegex: Option<Regex>,
      convertToLinuxPath: bool, pathRegex: Option<Regex>, fs: LocalFs)
      returns (r: Result<TransactionSummary>)
      ensures var plan := PullPlan(remotePath, localBaseDir, includeRegex, excludeRegex, convertToLinuxPath, pathRegex, fs);
        && (r.Ok? <==> plan.Ok?)
        && (r.Err? ==> r.error == plan.error)
        && (r.Ok? ==>
          && fresh(r.value) && r.value.Valid() && r.value.entries == plan.value
          && r.value.syncDirection == Some(Direction.Pull) && r.value.syncedFiles == [])
    {
      var inc := HandleDeprecatedPathRegex(includeRegex, pathRegex);
      if inc.Err? {
        return Err(inc.error);
      }
      var sc := PullScopeOf(remotePath, localBaseDir, inc.value, excludeRegex, convertToLinuxPath, fs);
      var objs := ListObjects(bucket, sc.full);
      r := ScanPullObjects(sc, objs);
    }

    /** The inputs of the push scan. */
    function PushScopeOf(includeRegex: Option<Regex>, excludeRegex: Option<Regex>, fs: LocalFs): PushScope
      reads this
    {
      PushScope(fs, remoteBasePath, includeRegex, excludeRegex, remoteHashExtractor, bucket)
    }

    /** The history `_get_push_summary` feeds to `add_entry`, or the error that aborts it. */
    function PushPlan(path: string, localPathPrefix: Option<string>, includeRegex: Option<Regex>, excludeRegex: Option<Regex>,
      pathRegex: Option<Regex>, fs: LocalFs, glob: Glob): Result<seq<Entry>>
      reads this
    {
      var inc := HandleDeprecatedPathRegex(includeRegex, pathRegex);
      if inc.Err? then Err(inc.error)
      else
        var rel := PushRelativePath(path, localPathPrefix);
        if rel.Err? then Err(rel.error)
        else PlanPush(PushScopeOf(inc.value, excludeRegex, fs), glob(rel.value))
    }

    /**
     * `_get_push_summary`: the path is made relative to the prefix, expanded to candidate
     * files (none is a FileNotFoundError), and every candidate is entered into a fresh
     * push summary in order; the first error aborts the scan.
     */
    method GetPushSummary(path: string, localPathPrefix: Option<string>, includeRegex: Option<Regex>, excludeRegex: Option<Regex>,
      pathRegex: Option<Regex>, fs: LocalFs, glob: Glob)
      returns (r: Result<TransactionSummary>)
      ensures var plan := PushPlan(path, localPathPrefix, includeRegex, excludeRegex, pathRegex, fs, glob);
        && (r.Ok? <==> plan.Ok?)
        && (r.Err? ==> r.error == plan.error)
        && (r.Ok? ==>
          && fresh(r.value) && r.value.Valid() && r.value.entries == plan.value
          && r.value.syncDirection == Some(Direction.Push) && r.value.syncedFiles == [])
    {
      var inc := HandleDeprecatedPathRegex(includeRegex, pathRegex);
      if inc.Err? {
        return Err(inc.error);
      }
      var rel := PushRelativePath(path, localPathPrefix);
      if rel.Err? {
        return Err(rel.error);
      }
      var files := glob(rel.value);
      if |files| == 0 {
        return Err(FileNotFoundError);
      }
      r := ScanPushFiles(PushScopeOf(inc.value, excludeRegex, fs), files);
    }

    /**
     * `_execute_sync_from_summary`: the refusals come first (nothing happens and
     * `synced_files` is unchanged); then the files to sync are synchronised in order,
     * each appended to `synced_files`, until one fails. The bucket and the local file
     * system end as the run leaves them, also when it fails part way.
     */
    method ExecuteSyncFromSummary(summary: TransactionSummary, fs: LocalFs, dryrun: bool, force: bool)
      returns (fs': LocalFs, err: Option<Error>)
      modifies this`bucket, summary`syncedFiles
      ensures var run := SyncFromSummary(
          old(summary.FilesToSync()), old(summary.HasUnresolvableCollisions()), old(summary.RequiresForce()),
          old(summary.SizeFilesToSync()), old(summary.syncDirection), Env(fs, old(bucket)), dryrun, force, remoteHashExtractor);
        && summary.syncedFiles == old(summary.syncedFiles) + run.synced
        && bucket == run.env.bucket && fs' == run.env.fs
        && err == run.error
      ensures summary.entries == old(summary.entries) && summary.syncDirection == old(summary.syncDirection)
      ensures old(summary.Valid()) ==> summary.Valid()
    {
      fs', err := fs, None;
      if dryrun {
        return;
      }
      if summary.HasUnresolvableCollisions() || (summary.RequiresForce() && !force) {
        err := Some(FileExistsError);
        return;
      }
      var files := summary.FilesToSync();
      if |files| == 0 {
        return;
      }
      var size := summary.SizeFilesToSync();
      if size.Err? {
        err := Some(size.error);
        return;
      }
      if summary.syncDirection.None? {
        err := Some(AssertionError);
        return;
      }
      fs', err := SyncFiles(summary, files, summary.syncDirection.value, force, fs);
    }

    /**
     * The loop of `_execute_sync_from_summary`: each file is synchronised in the current
     * environment and appended to `synced_files`, until one fails.
     */
    method SyncFiles(summary: TransactionSummary, files: seq<SyncObject>, direction: Direction, force: bool, fs: LocalFs)
      returns (fs': LocalFs, err: Option<Error>)
      modifies this`bucket, summary`syncedFiles
      ensures var run := SyncAll(Env(fs, old(bucket)), files, SyncStep(direction, force, remoteHashExtractor));
        && summary.syncedFiles == old(summary.syncedFiles) + run.synced
        && bucket == run.env.bucket && fs' == run.env.fs
        && err == run.error
      ensures summary.entries == old(summary.entries) && summary.syncDirection == old(summary.syncDirection)
      ensures old(summary.Valid()) ==> summary.Valid()
    {
      fs', err := fs, None;
      ghost var step := SyncStep(direction, force, remoteHashExtractor);
      ghost var env0 := Env(fs, bucket);
      ghost var synced := [];
      var i := 0;
      while i < |files|
        invariant 0 <= i <= |files|
        invariant SyncAll(env0, files[..i], step) == SyncRun(synced, Env(fs', bucket), None)
        invariant summary.syncedFiles == old(summary.syncedFiles) + synced
      {
        assert files[..i + 1][..i] == files[..i];
        var res := ExecuteSync(Env(fs', bucket), files[i], direction, force, remoteHashExtractor);
        if res.Err? {
          err := Some(res.error);
          SyncAllStops(env0, files, i + 1, step);
          return;
        }
        summary.syncedFiles := summary.syncedFiles + [res.value.0];
        synced := synced + [res.value.0];
        fs', bucket := res.value.1.fs, res.value.1.bucket;
        i := i + 1;
      }
      assert files[..i] == files;
    }

    /**
     * `pull`: the remote path is resolved against the prefix to strip, scanned into a
     * summary, and the summary executed. On success the summary records the scan and
     * what was synchronised; an error of the resolution or the scan changes nothing.
     */
    method Pull(remotePath: string, localBaseDir: string, force: bool, includeRegex: Option<Regex>, excludeRegex: Option<Regex>,
      convertToLinuxPath: bool, dryrun: bool, pathRegex: Option<Regex>, stripAbspathPrefix: Option<string>,
      stripAbsLocalBaseDir: bool, fs: LocalFs)
      returns (r: Result<TransactionSummary>, fs': LocalFs)
      modifies this`bucket
      ensures var rp := ResolvePullRemotePathAsWritten(remotePath, localBaseDir, stripAbspathPrefix, stripAbsLocalBaseDir);
        && (rp.Err? ==> r == Err(rp.error) && fs' == fs && bucket == old(bucket))
        && (rp.Ok? ==>
          var plan := old(PullPlan(rp.value, localBaseDir, includeRegex, excludeRegex, convertToLinuxPath, pathRegex, fs));
          && (plan.Err? ==> r == Err(plan.error) && fs' == fs && bucket == old(bucket))
          && (plan.Ok? ==>
            var run := SummaryRun(plan.value, Direction.Pull, Env(fs, old(bucket)), dryrun, force, remoteHashExtractor);
            && fs' == run.env.fs && bucket == run.env.bucket
            && (r.Ok? <==> run.error.None?)
            && (r.Err? ==> r.error == run.error.value)
            && (r.Ok? ==>
              && fresh(r.value) && r.value.Valid() && r.value.syncDirection == Some(Direction.Pull)
              && r.value.entries == plan.value && r.value.syncedFiles == run.synced)))
    {
      var rp := ResolvePullRemotePathAsWritten(remotePath, localBaseDir, stripAbspathPrefix, stripAbsLocalBaseDir);
      if rp.Err? {
        return Err(rp.error), fs;
      }
      var inc := HandleDeprecatedPathRegex(includeRegex, pathRegex);
      if inc.Err? {
        return Err(inc.error), fs;
      }
      var s := GetPullSummary(rp.value, localBaseDir, inc.value, excludeRegex, convertToLinuxPath, None, fs);
      if s.Err? {
        return Err(s.error), fs;
      }
      var summary := s.value;
      SummaryRunOfValid(summary, summary.syncDirection.value, Env(fs, bucket), dryrun, force, remoteHashExtractor);
      var err;
      fs', err := ExecuteSyncFromSummary(summary, fs, dryrun, force);
      if err.Some? {
        return Err(err.value), fs';
      }
      return Ok(summary), fs';
    }

    /**
     * `push`: the local files are scanned into a summary and the summary executed. On
     * success the summary records the scan and what was synchronised; an error of the
     * scan changes nothing.
     */
    method Push(path: string, localPathPrefix: Option<string>, force: bool, includeRegex: Option<Regex>,
      excludeRegex: Option<Regex>, dryrun: bool, pathRegex: Option<Regex>, fs: LocalFs, glob: Glob)
      returns (r: Result<TransactionSummary>, fs': LocalFs)
      modifies this`bucket
      ensures var plan := old(PushPlan(path, localPathPrefix, includeRegex, excludeRegex, pathRegex, fs, glob));
        && (plan.Err? ==> r == Err(plan.error) && fs' == fs && bucket == old(bucket))
        && (plan.Ok? ==>
          var run := SummaryRun(plan.value, Direction.Push, Env(fs, old(bucket)), dryrun, force, remoteHashExtractor);
          && fs' == run.env.fs && bucket == run.env.bucket
          && (r.Ok? <==> run.error.None?)
          && (r.Err? ==> r.error == run.error.value)
          && (r.Ok? ==>
            && fresh(r.value) && r.value.Valid() && r.value.syncDirection == Some(Direction.Push)
            && r.value.entries == plan.value && r.value.syncedFiles == run.synced))
    {
      var inc := HandleDeprecatedPathRegex(includeRegex, pathRegex);
      if inc.Err? {
        return Err(inc.error), fs;
      }
      var s := GetPushSummary(path, localPathPrefix, inc.value, excludeRegex, None, fs, glob);
      if s.Err? {
        return Err(s.error), fs;
      }
      var summary := s.value;
      SummaryRunOfValid(summary, summary.syncDirection.value, Env(fs, bucket), dryrun, force, remoteHashExtractor);
      var err;
      fs', err := ExecuteSyncFromSummary(summary, fs, dryrun, force);
      if err.Some? {
        return Err(err.value), fs';
      }
      return Ok(summary), fs';
    }

    /**
     * `delete`: every listed object under the full remote path that is not a false
     * positive and passes the patterns is deleted, in listing order, and returned. Each
     * deletion finds its object, so the bucket loses exactly the returned objects.
     */
    method Delete(remotePath: string, includeRegex: Option<Regex>, excludeRegex: Option<Regex>, pathRegex: Option<Regex>)
      returns (r: Result<seq<RemoteObject>>)
      modifies this`bucket
      ensures var inc := HandleDeprecatedPathRegex(includeRegex, pathRegex);
        && (inc.Err? ==> r == Err(inc.error) && bucket == old(bucket))
        && (inc.Ok? ==>
          var full := FullRemotePath(remoteBasePath, remotePath);
          && r == Ok(DeleteTargets(remoteBasePath, full, ListObjects(old(bucket), full), inc.value, excludeRegex))
          && multiset(bucket) == multiset(old(bucket)) - multiset(r.value)
          && |bucket| == |old(bucket)| - |r.value|)
    {
      var inc := HandleDeprecatedPathRegex(includeRegex, pathRegex);
      if inc.Err? {
        return Err(inc.error);
      }
      var full := FullRemotePath(remoteBasePath, remotePath);
      var objs := ListObjects(bucket, full);
      ListObjectsSubMultiset(bucket, full);
      var base := remoteBasePath;
      var remaining, deleted := DeleteEach(bucket, objs, o => Deletable(base, full, o, inc.value, excludeRegex));
      bucket := remaining;
      return Ok(deleted);
    }
  }
}
