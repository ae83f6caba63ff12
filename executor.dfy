/**
 * `_execute_sync` and the decisions of `_execute_sync_from_summary`
 * (src/accsr/remote_storage.py) over an environment made of the local file
 * system snapshot and the bucket's objects. An upload stores the local
 * file's size and content hash; a download writes the object's size and hash
 * to the local path.
 */
module Executor {
  import opened Wrappers
  import opened PyStrings
  import opened SyncObjects
  import opened Buckets
  import opened Planning

  datatype Env = Env(fs: LocalFs, bucket: Bucket)

  /** `bucket.upload_object(local_path, remote_path)`: the file must exist locally. */
  function UploadFile(env: Env, localPath: string, remotePath: string): (r: Result<(RemoteObject, Env)>)
    ensures r.Err? <==> !IsFile(env.fs, localPath)
    ensures r.Err? ==> r.error == FileNotFoundError
    ensures r.Ok? ==>
      && r.value.0 == RemoteObject(remotePath, env.fs.files[localPath].size, env.fs.files[localPath].hash)
      && r.value.1 == env.(bucket := Upload(env.bucket, r.value.0))
  {
    if !IsFile(env.fs, localPath) then Err(FileNotFoundError)
    else
      var info := env.fs.files[localPath];
      var obj := RemoteObject(remotePath, info.size, info.hash);
      Ok((obj, env.(bucket := Upload(env.bucket, obj))))
  }

  /** `remote_obj.download(local_path, overwrite_existing)`: an existing file is only replaced when overwriting. */
  function DownloadFile(env: Env, obj: RemoteObject, localPath: string, overwrite: bool): (r: Result<Env>)
    ensures r.Err? <==> IsFile(env.fs, localPath) && !overwrite
    ensures r.Err? ==> r.error == BackendError
    ensures r.Ok? ==> r.value == env.(fs := env.fs.(files := env.fs.files[localPath := FileInfo(obj.size, obj.hash)]))
  {
    if IsFile(env.fs, localPath) && !overwrite then Err(BackendError)
    else Ok(env.(fs := env.fs.(files := env.fs.files[localPath := FileInfo(obj.size, obj.hash)])))
  }

  /**
   * `_execute_sync`. An object whose hashes already match is returned as it is; one
   * that exists on the target is refused without `force`; the transfer size is computed
   * (for the log line) before the direction is looked at, so a pull without remote
   * object fails with FileNotFoundError. A push uploads and re-reads the uploaded object
   * (with the extractor's hash); a pull refuses a missing object or local path and a
   * local directory, downloads, and re-reads without any overriding hash.
   */
  function ExecuteSync(env: Env, obj: SyncObject, direction: Direction, force: bool, extractor: HashExtractor)
    : (r: Result<(SyncObject, Env)>)
    ensures obj.EqualMd5HashSum() ==> r == Ok((obj, env))
    ensures !obj.EqualMd5HashSum() && obj.ExistsOnTarget() && !force ==> r == Err(ValueError)
    ensures r.Ok? && r.value.0 != obj ==> r.value.0.Valid() && r.value.0.direction == obj.direction
    ensures r.Ok? && direction == Push ==> r.value.1.fs == env.fs
    ensures r.Ok? && direction == Pull ==> r.value.1.bucket == env.bucket
  {
    if obj.EqualMd5HashSum() then Ok((obj, env))
    else if obj.ExistsOnTarget() && !force then Err(ValueError)
    else if obj.BytesTransferred().Err? then Err(obj.BytesTransferred().error)
    else if direction == Push then PushObject(env, obj, extractor)
    else PullObject(env, obj, force)
  }

  /** The push branch of `_execute_sync`: upload the local file, then describe the uploaded object. */
  function PushObject(env: Env, obj: SyncObject, extractor: HashExtractor): (r: Result<(SyncObject, Env)>)
    ensures r.Ok? ==> r.value.0.Valid() && r.value.0.direction == obj.direction && r.value.1.fs == env.fs
  {
    if !obj.existsLocally then Err(FileNotFoundError)
    else if obj.localPath.None? then Err(AssertionError)
    else
      match UploadFile(env, obj.localPath.value, obj.remotePath)
      case Err(e) => Err(e)
      case Ok((ro, env')) =>
        match NewSyncObject(env'.fs, obj.direction, obj.localPath, Some(ro), None, Override(extractor, ro))
        case Err(e) => Err(e)
        case Ok(so) => Ok((so, env'))
  }

  /** The pull branch of `_execute_sync`: download onto the local path, then describe the pair again. */
  function PullObject(env: Env, obj: SyncObject, force: bool): (r: Result<(SyncObject, Env)>)
    ensures r.Ok? ==> r.value.0.Valid() && r.value.0.direction == obj.direction && r.value.1.bucket == env.bucket
  {
    if obj.remoteObj.None? || obj.localPath.None? then Err(RuntimeError)
    else if IsDir(env.fs, obj.localPath.value) then Err(FileExistsError)
    else
      match DownloadFile(env, obj.remoteObj.value, obj.localPath.value, force)
      case Err(e) => Err(e)
      case Ok(env') =>
        match NewSyncObject(env'.fs, obj.direction, obj.localPath, obj.remoteObj, None, None)
        case Err(e) => Err(e)
        case Ok(so) => Ok((so, env'))
  }

  /** A synchronised valid object keeps its name. */
  lemma ExecuteSyncKeepsName(env: Env, obj: SyncObject, direction: Direction, force: bool, extractor: HashExtractor)
    requires obj.Valid()
    ensures var r := ExecuteSync(env, obj, direction, force, extractor);
      r.Ok? ==> r.value.0.Name() == obj.Name()
  {
    if obj.remotePath != [] {
      LStripStopsAt(obj.remotePath, Slash);
    }
  }

  /**
   * Pushing a valid local file that is not refused leaves the bucket holding the file's
   * content under the object's name, leaves the local side alone, and (without an
   * extractor) reports both sides equal.
   */
  lemma PushMakesRemoteCurrent(env: Env, obj: SyncObject, force: bool)
    requires obj.Valid() && obj.direction == Push && obj.existsLocally
    requires IsFile(env.fs, obj.localPath.value) && !IsDir(env.fs, obj.localPath.value)
    requires !obj.EqualMd5HashSum() && !(obj.ExistsOnTarget() && !force)
    ensures var r := ExecuteSync(env, obj, Push, force, None);
      && r.Ok?
      && r.value.1.fs == env.fs
      && Find(r.value.1.bucket, obj.Name()) ==
           Some(RemoteObject(obj.Name(), env.fs.files[obj.localPath.value].size, env.fs.files[obj.localPath.value].hash))
      && r.value.0.EqualMd5HashSum()
  {
    var info := env.fs.files[obj.localPath.value];
    var ro := RemoteObject(obj.remotePath, info.size, info.hash);
    FindAfterUpload(env.bucket, ro);
    var up := UploadFile(env, obj.localPath.value, obj.remotePath);
    assert up == Ok((ro, env.(bucket := Upload(env.bucket, ro))));
    assert ExecuteSync(env, obj, Push, force, None) == PushObject(env, obj, None);
  }

  /**
   * Pulling a valid object onto a path that is not a directory (and is absent, or
   * `force` is set) writes the object's content there, leaves the bucket alone, and
   * reports both sides equal.
   */
  lemma PullMakesLocalCurrent(env: Env, obj: SyncObject, force: bool, extractor: HashExtractor)
    requires obj.Valid() && obj.direction == Pull && obj.remoteObj.Some? && obj.localPath.Some?
    requires !IsDir(env.fs, obj.localPath.value)
    requires !obj.EqualMd5HashSum() && !(obj.ExistsOnTarget() && !force)
    requires force || !IsFile(env.fs, obj.localPath.value)
    ensures var r := ExecuteSync(env, obj, Pull, force, extractor);
      && r.Ok?
      && r.value.1.bucket == env.bucket
      && r.value.1.fs.files[obj.localPath.value] == FileInfo(obj.remoteObj.value.size, obj.remoteObj.value.hash)
      && r.value.0.EqualMd5HashSum()
  {
    var ro, lp := obj.remoteObj.value, obj.localPath.value;
    var env' := env.(fs := env.fs.(files := env.fs.files[lp := FileInfo(ro.size, ro.hash)]));
    assert DownloadFile(env, ro, lp, force) == Ok(env');
    assert ExecuteSync(env, obj, Pull, force, extractor) == PullObject(env, obj, force);
  }

  /** What a run over `files_to_sync` produced: the synced objects, the environment and the error that stopped it. */
  datatype SyncRun = SyncRun(synced: seq<SyncObject>, env: Env, error: Option<Error>)

  /** One iteration of the loop: synchronise one object in the current environment. */
  type Step = (Env, SyncObject) -> Result<(SyncObject, Env)>

  /** `_execute_sync` with the summary's direction and the caller's `force`. */
  function SyncStep(direction: Direction, force: bool, extractor: HashExtractor): Step {
    (e: Env, o: SyncObject) => ExecuteSync(e, o, direction, force, extractor)
  }

  /** The step keeps the name of valid objects and passes objects with matching hashes through. */
  ghost predicate WellBehaved(step: Step) {
    && (forall e: Env, o: SyncObject :: o.Valid() && step(e, o).Ok? ==> step(e, o).value.0.Name() == o.Name())
    && (forall e: Env, o: SyncObject :: o.EqualMd5HashSum() ==> step(e, o) == Ok((o, e)))
  }

  lemma SyncStepWellBehaved(direction: Direction, force: bool, extractor: HashExtractor)
    ensures WellBehaved(SyncStep(direction, force, extractor))
  {
    forall e: Env, o: SyncObject | o.Valid()
      ensures var r := SyncStep(direction, force, extractor)(e, o); r.Ok? ==> r.value.0.Name() == o.Name()
    {
      ExecuteSyncKeepsName(e, o, direction, force, extractor);
    }
  }

  /** The loop of `_execute_sync_from_summary`: objects in order, stopping at the first error. */
  function SyncAll(env: Env, objs: seq<SyncObject>, step: Step): (run: SyncRun)
    ensures |run.synced| <= |objs|
    ensures run.error.None? ==> |run.synced| == |objs|
    ensures run.error.Some? ==> |run.synced| < |objs|
  {
    if objs == [] then SyncRun([], env, None)
    else
      var p := SyncAll(env, objs[..|objs| - 1], step);
      if p.error.Some? then p
      else
        match step(p.env, objs[|objs| - 1])
        case Err(e) => SyncRun(p.synced, p.env, Some(e))
        case Ok((o, env')) => SyncRun(p.synced + [o], env', None)
  }

  /** Once a run has stopped, further objects change nothing. */
  lemma {:induction false} SyncAllStops(env: Env, objs: seq<SyncObject>, k: nat, step: Step)
    requires k <= |objs|
    requires SyncAll(env, objs[..k], step).error.Some?
    ensures SyncAll(env, objs, step) == SyncAll(env, objs[..k], step)
    decreases |objs| - k
  {
    if k < |objs| {
      var n := |objs|;
      assert objs[..n - 1][..k] == objs[..k];
      SyncAllStops(env, objs[..n - 1], k, step);
    } else {
      assert objs[..k] == objs;
    }
  }

  /**
   * Every synced object is the synchronised version of the object at the same position
   * and keeps its name; an object whose hashes matched is passed through unchanged.
   */
  lemma {:induction false} SyncAllPositions(env: Env, objs: seq<SyncObject>, step: Step)
    requires WellBehaved(step)
    requires forall i :: 0 <= i < |objs| ==> objs[i].Valid()
    ensures var run := SyncAll(env, objs, step);
      forall i :: 0 <= i < |run.synced| ==>
        && run.synced[i].Name() == objs[i].Name()
        && (objs[i].EqualMd5HashSum() ==> run.synced[i] == objs[i])
  {
    if objs != [] {
      var n := |objs|;
      var init := objs[..n - 1];
      assert forall i :: 0 <= i < n - 1 ==> init[i] == objs[i];
      SyncAllPositions(env, init, step);
    }
  }

  /**
   * What `_execute_sync_from_summary` does with a summary: a dry run does nothing; a
   * collision or (without force) a required overwrite is a FileExistsError before any
   * transfer; nothing to sync does nothing; otherwise the total size is computed (and
   * may fail), the direction must be set, and the objects are synchronised in order.
   */
  function SyncFromSummary(
    files: seq<SyncObject>, hasCollisions: bool, requiresForce: bool, size: Result<nat>,
    direction: Option<Direction>, env: Env, dryrun: bool, force: bool, extractor: HashExtractor)
    : (run: SyncRun)
    ensures dryrun ==> run == SyncRun([], env, None)
    ensures !dryrun && hasCollisions ==> run == SyncRun([], env, Some(FileExistsError))
    ensures !dryrun && !hasCollisions && requiresForce && !force ==> run == SyncRun([], env, Some(FileExistsError))
    ensures run.error.None? && !dryrun ==> |run.synced| == |files|
    ensures run.error.Some? ==> |run.synced| < |files| || run.synced == []
  {
    if dryrun then SyncRun([], env, None)
    else if hasCollisions then SyncRun([], env, Some(FileExistsError))
    else if requiresForce && !force then SyncRun([], env, Some(FileExistsError))
    else if files == [] then SyncRun([], env, None)
    else if size.Err? then SyncRun([], env, Some(size.error))
    else if direction.None? then SyncRun([], env, Some(AssertionError))
    else SyncAll(env, files, SyncStep(direction.value, force, extractor))
  }

  /**
   * Whatever a summary run synchronised, position by position, is the file to sync at
   * that position under its own name, and a file whose hashes matched comes back as it was.
   */
  lemma SyncFromSummaryPositions(
    files: seq<SyncObject>, hasCollisions: bool, requiresForce: bool, size: Result<nat>,
    direction: Option<Direction>, env: Env, dryrun: bool, force: bool, extractor: HashExtractor)
    requires forall i :: 0 <= i < |files| ==> files[i].Valid()
    ensures var run := SyncFromSummary(files, hasCollisions, requiresForce, size, direction, env, dryrun, force, extractor);
      forall i :: 0 <= i < |run.synced| ==>
        && run.synced[i].Name() == files[i].Name()
        && (files[i].EqualMd5HashSum() ==> run.synced[i] == files[i])
  {
    if direction.Some? {
      SyncStepWellBehaved(direction.value, force, extractor);
      SyncAllPositions(env, files, SyncStep(direction.value, force, extractor));
    }
  }
}
