/**
 * The older remote storage wrapper of `persistence/remote_storage.py`: pushes
 * and pulls single files and whole directories without a transaction
 * summary, deciding only whether to overwrite.
 */
module LegacyStorage {
  import opened Wrappers
  import opened PyStrings
  import opened SyncObjects
  import opened Buckets

  /** Python truthiness of an optional string: `None` and "" are false. */
  predicate Truthy(s: Option<string>) {
    s.Some? && s.value != []
  }

  /** `_get_push_local_path`: the local path of a file to push. */
  function PushLocalPath(path: string, prefix: Option<string>): (r: Result<string>)
    ensures r.Err? <==> Truthy(prefix) && IsAbs(path)
    ensures r.Err? ==> r.error == ValueError
    ensures IsAbs(path) && !Truthy(prefix) ==> r == Ok(path)
    ensures !IsAbs(path) && !Truthy(prefix) ==> r == Ok(path)
    ensures !IsAbs(path) && Truthy(prefix) ==> r.Ok? && StartsWith(r.value, prefix.value) && EndsWith(r.value, path)
  {
    if Truthy(prefix) && IsAbs(path) then Err(ValueError)
    else if IsAbs(path) then Ok(path)
    else Ok(PathJoin(if Truthy(prefix) then prefix.value else "", path))
  }

  /** The four usage examples documented with `_get_push_local_path`. */
  lemma PushLocalPathExamples()
    ensures PushLocalPath("/foo/bar/baz.txt", None) == Ok("/foo/bar/baz.txt")
    ensures PushLocalPath("foo/bar/baz.txt", None) == Ok("foo/bar/baz.txt")
    ensures PushLocalPath("bar/baz.txt", Some("/foo")) == Ok("/foo/bar/baz.txt")
    ensures PushLocalPath("/bar/baz.txt", Some("/foo")) == Err(ValueError)
  {
    assert "/foo/bar/baz.txt"[..1] == "/" && "/bar/baz.txt"[..1] == "/";
    assert "foo/bar/baz.txt"[..1] == "f" && "bar/baz.txt"[..1] == "b";
    assert "/foo"[3..] == "o";
    assert PathJoin("/foo", "bar/baz.txt") == "/foo/bar/baz.txt";
  }

  /** `_get_push_remote_path`: the base and the local path joined by "/", each "//" made "/". */
  function PushRemotePath(base: string, localPath: string): string {
    Replace(SlashJoin(base, localPath), "//", "/")
  }

  /** Without a doubled slash to collapse, the remote path is the plain join. */
  lemma PushRemotePathPlain(base: string, localPath: string)
    requires forall i: nat :: !OccursAt(SlashJoin(base, localPath), "//", i)
    ensures PushRemotePath(base, localPath) == base + "/" + localPath
  {
    ReplaceAbsent(SlashJoin(base, localPath), "//", "/");
  }

  /** The collapse removes the slash a base ending in "/" would double, but keeps one leading "/" for an empty base. */
  lemma PushRemotePathSlashes()
    ensures PushRemotePath("data/", "x") == "data/x"
    ensures PushRemotePath("", "x") == "/x"
  {
    assert SlashJoin("data/", "x") == "data//x";
    assert "data//x"[..2] == "da" && "ata//x"[..2] == "at" && "ta//x"[..2] == "ta";
    assert "a//x"[..2] == "a/" && "//x"[..2] == "//";
    assert SlashJoin("", "x") == "/x";
    assert "/x"[..2] == "/x";
  }

  /** The outcome of `pull_file`: the downloaded object (if any) and the local files after it. */
  datatype PullFileRun = PullFileRun(result: Result<Option<RemoteObject>>, local: LocalFs)

  /** The outcome of `pull_directory`: the downloaded objects and the local files after them. */
  datatype PullDirRun = PullDirRun(result: Result<seq<RemoteObject>>, local: LocalFs)

  /** The outcome of `push_file`: the uploaded object and the bucket after it. */
  datatype PushFileRun = PushFileRun(result: Result<RemoteObject>, bucket: Bucket)

  /** Where `pull_file` writes `remotePath` (a missing base directory counts as ""). */
  function DownloadPath(localBaseDir: Option<string>, remotePath: string): string {
    PathJoin(if localBaseDir.Some? then localBaseDir.value else "", remotePath)
  }

  /** The local files after `object.download` wrote `o` to `dp`, its directories made first. */
  function WrittenTo(local: LocalFs, dp: string, o: RemoteObject): LocalFs {
    var made := MakeDirs(local, Dirname(dp));
    made.(files := made.files[dp := FileInfo(o.size, o.hash)])
  }

  /**
   * `pull_file`: an existing local file is skipped unless overwriting;
   * otherwise the object under "base/remotePath" is fetched (an error of the
   * backend when absent), the directory of the download path is made, and the
   * object is written there. For a download path without "/", `os.makedirs`
   * of the empty directory name raises FileNotFoundError after the fetch.
   */
  function PullFile(base: string, bucket: Bucket, local: LocalFs, remotePath: string,
                    localBaseDir: Option<string>, overwrite: bool): PullFileRun
  {
    var dp := DownloadPath(localBaseDir, remotePath);
    if PathExists(local, dp) && !overwrite then PullFileRun(Ok(None), local)
    else
      match Find(bucket, SlashJoin(base, remotePath))
      case None => PullFileRun(Err(ObjectDoesNotExist), local)
      case Some(o) =>
        if Dirname(dp) == [] then PullFileRun(Err(FileNotFoundError), local)
        else PullFileRun(Ok(Some(o)), WrittenTo(local, dp, o))
  }

  /**
   * A pull skips an existing file unless overwriting; it fails with
   * ObjectDoesNotExist iff no object has the name "base/remotePath", and with
   * FileNotFoundError iff there is one but the download path has no directory
   * part; neither error writes anything. Otherwise the object is downloaded,
   * with the directories above the download path made.
   */
  lemma PullFileOutcome(base: string, bucket: Bucket, local: LocalFs, remotePath: string,
                        localBaseDir: Option<string>, overwrite: bool)
    ensures var r := PullFile(base, bucket, local, remotePath, localBaseDir, overwrite);
      var dp := DownloadPath(localBaseDir, remotePath);
      var kept := PathExists(local, dp) && !overwrite;
      var name := SlashJoin(base, remotePath);
      (kept ==> r == PullFileRun(Ok(None), local)) &&
      (r.result == Err(ObjectDoesNotExist) <==> !kept && forall o :: o in bucket ==> o.name != name) &&
      (r.result == Err(FileNotFoundError) <==> !kept && (exists o :: o in bucket && o.name == name) && Dirname(dp) == []) &&
      (r.result.Err? ==> r.local == local && r.result.error in {ObjectDoesNotExist, FileNotFoundError}) &&
      (r.result.Ok? && r.result.value.Some? ==>
        var o := r.result.value.value;
        o in bucket && o.name == name && Dirname(dp) != [] &&
        r.local.files == local.files[dp := FileInfo(o.size, o.hash)] &&
        r.local.dirs == local.dirs + Ancestry(Dirname(dp))) &&
      (r.result.Ok? && r.result.value.None? ==> r.local == local && kept)
  {
    var name := SlashJoin(base, remotePath);
    match Find(bucket, name)
    case None =>
    case Some(o) => assert o in bucket && o.name == name;
  }

  /** A name directly below the base, pulled without a local base directory, is fetched but not written. */
  lemma PullBareNameFails(local: LocalFs, size: nat, hash: string)
    requires !PathExists(local, "x.txt")
    ensures PullFile("data", [RemoteObject("data/x.txt", size, hash)], local, "x.txt", None, false).result == Err(FileNotFoundError)
  {
    assert PathJoin("", "x.txt") == "x.txt";
    assert SlashJoin("data", "x.txt") == "data/x.txt";
    assert Dirname("x.txt") == [];
  }

  /** The path `pull_directory` hands to `pull_file`: the name without its first `len(base) + 1` characters. */
  function RelativeName(base: string, o: RemoteObject): string {
    DropPrefix(o.name, |base| + 1)
  }

  /** Every object of a directory listing is pulled under its name relative to the base. */
  lemma RelativeNameRoundTrip(base: string, bucket: Bucket, remoteDir: string, o: RemoteObject)
    requires o in ListObjects(bucket, SlashJoin(base, remoteDir))
    ensures SlashJoin(base, RelativeName(base, o)) == o.name
  {
    assert o.name[..|base| + 1] == base + "/";
    assert o.name == o.name[..|base| + 1] + o.name[|base| + 1..];
  }

  /** One pass of the loop of `pull_directory`: the local files before it and the listed object to pull. */
  type PullStep = (LocalFs, RemoteObject) -> PullFileRun

  /** A pass that pulls the object under its relative name. */
  function PullRelative(base: string, bucket: Bucket, localBaseDir: Option<string>, overwrite: bool): PullStep {
    (l: LocalFs, o: RemoteObject) => PullFile(base, bucket, l, RelativeName(base, o), localBaseDir, overwrite)
  }

  /** What a pass contributes to the returned list: the downloaded object, if any. */
  function Downloaded(step: PullFileRun): seq<RemoteObject>
    requires step.result.Ok?
  {
    if step.result.value.Some? then [step.result.value.value] else []
  }

  /** The loop of `pull_directory` over `objs`, one pass after the other, stopping at the first error. */
  function PullEach(local: LocalFs, objs: seq<RemoteObject>, pull: PullStep): PullDirRun
    decreases |objs|
  {
    if objs == [] then PullDirRun(Ok([]), local)
    else
      var prev := PullEach(local, objs[..|objs| - 1], pull);
      if prev.result.Err? then prev
      else
        var step := pull(prev.local, objs[|objs| - 1]);
        if step.result.Err? then PullDirRun(Err(step.result.error), step.local)
        else PullDirRun(Ok(prev.result.value + Downloaded(step)), step.local)
  }

  lemma PullEachStep(local: LocalFs, objs: seq<RemoteObject>, pull: PullStep, i: nat)
    requires i < |objs|
    ensures var prev := PullEach(local, objs[..i], pull);
      var step := pull(prev.local, objs[i]);
      PullEach(local, objs[..i + 1], pull) ==
        if prev.result.Err? then prev
        else if step.result.Err? then PullDirRun(Err(step.result.error), step.local)
        else PullDirRun(Ok(prev.result.value + Downloaded(step)), step.local)
  {
    assert objs[..i + 1][..i] == objs[..i];
  }

  /** Once a pass fails, the remaining objects are not pulled. */
  lemma {:induction false} PullEachStops(local: LocalFs, objs: seq<RemoteObject>, pull: PullStep, k: nat)
    requires k <= |objs| && PullEach(local, objs[..k], pull).result.Err?
    ensures PullEach(local, objs, pull) == PullEach(local, objs[..k], pull)
    decreases |objs| - k
  {
    if k < |objs| {
      PullEachStep(local, objs, pull, k);
      PullEachStops(local, objs, pull, k + 1);
    } else {
      assert objs[..k] == objs;
    }
  }

  /** `pull_directory`: nothing for an empty listing, otherwise every listed object pulled in turn. */
  function PullDirectory(base: string, bucket: Bucket, local: LocalFs, remoteDir: string,
                         localBaseDir: Option<string>, overwrite: bool): PullDirRun
  {
    var objs := ListObjects(bucket, SlashJoin(base, remoteDir));
    if objs == [] then PullDirRun(Ok([]), local)
    else PullEach(local, objs, PullRelative(base, bucket, localBaseDir, overwrite))
  }

  /** Each pass returns at most one object, and only one of the bucket. */
  lemma {:induction false} PullEachFromBucket(base: string, bucket: Bucket, local: LocalFs, objs: seq<RemoteObject>,
                                              localBaseDir: Option<string>, overwrite: bool)
    ensures var run := PullEach(local, objs, PullRelative(base, bucket, localBaseDir, overwrite));
      run.result.Ok? ==> |run.result.value| <= |objs| && forall o :: o in run.result.value ==> o in bucket
    decreases |objs|
  {
    if objs != [] {
      var pull := PullRelative(base, bucket, localBaseDir, overwrite);
      var init := objs[..|objs| - 1];
      PullEachFromBucket(base, bucket, local, init, localBaseDir, overwrite);
      var prev := PullEach(local, init, pull);
      PullFileOutcome(base, bucket, prev.local, RelativeName(base, objs[|objs| - 1]), localBaseDir, overwrite);
    }
  }

  /** Whatever `pull_directory` reports downloaded is an object of the bucket. */
  lemma PullDirectoryFromBucket(base: string, bucket: Bucket, local: LocalFs, remoteDir: string,
                                localBaseDir: Option<string>, overwrite: bool)
    ensures var run := PullDirectory(base, bucket, local, remoteDir, localBaseDir, overwrite);
      run.result.Ok? ==> (|run.result.value| <= |ListObjects(bucket, SlashJoin(base, remoteDir))| &&
        forall o :: o in run.result.value ==> o in bucket)
  {
    PullEachFromBucket(base, bucket, local, ListObjects(bucket, SlashJoin(base, remoteDir)), localBaseDir, overwrite);
  }

  /** Passes that all skip leave nothing downloaded and the local files as they were. */
  lemma {:induction false} PullEachAllSkipped(local: LocalFs, objs: seq<RemoteObject>, pull: PullStep)
    requires forall i :: 0 <= i < |objs| ==> pull(local, objs[i]) == PullFileRun(Ok(None), local)
    ensures PullEach(local, objs, pull) == PullDirRun(Ok([]), local)
    decreases |objs|
  {
    if objs != [] {
      var init := objs[..|objs| - 1];
      forall i | 0 <= i < |init| ensures pull(local, init[i]) == PullFileRun(Ok(None), local) {
        assert init[i] == objs[i];
      }
      PullEachAllSkipped(local, init, pull);
      var step := pull(local, objs[|objs| - 1]);
      assert step == PullFileRun(Ok(None), local);
      assert Downloaded(step) == [];
      var prev := PullEach(local, init, pull);
      assert prev == PullDirRun(Ok([]), local);
      assert !prev.result.Err?;
      assert !step.result.Err?;
      assert PullEach(local, objs, pull) == PullDirRun(Ok(prev.result.value + Downloaded(step)), step.local);
      assert prev.result.value + Downloaded(step) == [];
      assert step.local == local;
    }
  }

  /** When every local target exists and nothing is overwritten, `pull_directory` downloads nothing. */
  lemma PullDirectorySkipsExisting(base: string, bucket: Bucket, local: LocalFs, remoteDir: string,
                                   localBaseDir: Option<string>)
    requires forall o :: o in ListObjects(bucket, SlashJoin(base, remoteDir)) ==>
      PathExists(local, DownloadPath(localBaseDir, RelativeName(base, o)))
    ensures PullDirectory(base, bucket, local, remoteDir, localBaseDir, false) == PullDirRun(Ok([]), local)
  {
    var objs := ListObjects(bucket, SlashJoin(base, remoteDir));
    var pull := PullRelative(base, bucket, localBaseDir, false);
    forall i | 0 <= i < |objs| ensures pull(local, objs[i]) == PullFileRun(Ok(None), local) {
      assert objs[i] in objs;
      PullFileOutcome(base, bucket, local, RelativeName(base, objs[i]), localBaseDir, false);
    }
    PullEachAllSkipped(local, objs, pull);
  }

  /**
   * `pull`: the path is first pulled as a single file; only when the backend
   * reports that no object has exactly that name is it pulled as a directory
   * (from the local files as they were, since a failed `pull_file` writes nothing).
   * Any other error of `pull_file` propagates.
   */
  function PullPath(base: string, bucket: Bucket, local: LocalFs, path: string,
                localBaseDir: Option<string>, overwrite: bool): PullDirRun
  {
    var single := PullFile(base, bucket, local, path, localBaseDir, overwrite);
    if single.result == Err(ObjectDoesNotExist) then PullDirectory(base, bucket, local, path, localBaseDir, overwrite)
    else if single.result.Err? then PullDirRun(Err(single.result.error), single.local)
    else PullDirRun(Ok(Downloaded(single)), single.local)
  }

  /**
   * A pull of a name the bucket holds returns that object alone, or nothing
   * when an existing local file is kept, or FileNotFoundError when the download
   * path has no directory part; any other path is pulled as a directory from
   * the local files as they were before the first attempt.
   */
  lemma PullDispatch(base: string, bucket: Bucket, local: LocalFs, path: string,
                     localBaseDir: Option<string>, overwrite: bool)
    ensures var r := PullPath(base, bucket, local, path, localBaseDir, overwrite);
      var dp := DownloadPath(localBaseDir, path);
      var kept := PathExists(local, dp) && !overwrite;
      var found := Find(bucket, SlashJoin(base, path));
      (kept ==> r == PullDirRun(Ok([]), local)) &&
      (!kept && found.Some? && Dirname(dp) != [] ==> r.result == Ok([found.value])) &&
      (!kept && found.Some? && Dirname(dp) == [] ==> r == PullDirRun(Err(FileNotFoundError), local)) &&
      (!kept && found.None? ==> r == PullDirectory(base, bucket, local, path, localBaseDir, overwrite))
  {
    var single := PullFile(base, bucket, local, path, localBaseDir, overwrite);
    var dp := DownloadPath(localBaseDir, path);
    if !(PathExists(local, dp) && !overwrite) {
      match Find(bucket, SlashJoin(base, path))
      case None =>
        assert single.result == Err(ObjectDoesNotExist);
      case Some(o) =>
        if Dirname(dp) == [] {
          assert single == PullFileRun(Err(FileNotFoundError), local);
        } else {
          assert single.result == Ok(Some(o));
        }
    }
  }

  /** `push_file`: the file is uploaded under its remote path unless something is listed there and overwriting is off. */
  function PushFile(base: string, bucket: Bucket, local: LocalFs, path: string,
                    prefix: Option<string>, overwrite: bool): (r: PushFileRun)
    ensures r.result.Err? ==> r.bucket == bucket
    ensures r.result.Err? ==> r.result.error in {ValueError, FileNotFoundError, RuntimeError}
    ensures r.result.Err? && r.result.error == ValueError <==> PushLocalPath(path, prefix).Err?
    ensures r.result.Err? && r.result.error == FileNotFoundError <==>
      PushLocalPath(path, prefix).Ok? && !IsFile(local, PushLocalPath(path, prefix).value)
    ensures r.result.Err? && r.result.error == RuntimeError <==>
      PushLocalPath(path, prefix).Ok? && IsFile(local, PushLocalPath(path, prefix).value) &&
      ListObjects(bucket, PushRemotePath(base, PushLocalPath(path, prefix).value)) != [] && !overwrite
    ensures r.result.Ok? ==> (PushLocalPath(path, prefix).Ok? &&
      var lp := PushLocalPath(path, prefix).value;
      IsFile(local, lp) && r.result.value == RemoteObject(PushRemotePath(base, lp), local.files[lp].size, local.files[lp].hash) &&
      r.bucket == Upload(bucket, r.result.value))
  {
    match PushLocalPath(path, prefix)
    case Err(e) => PushFileRun(Err(e), bucket)
    case Ok(lp) =>
      if !IsFile(local, lp) then PushFileRun(Err(FileNotFoundError), bucket)
      else
        var rp := PushRemotePath(base, lp);
        if ListObjects(bucket, rp) != [] && !overwrite then PushFileRun(Err(RuntimeError), bucket)
        else
          var obj := RemoteObject(rp, local.files[lp].size, local.files[lp].hash);
          PushFileRun(Ok(obj), Upload(bucket, obj))
  }

  /** After a push the remote path holds the pushed file, and no other name changes. */
  lemma PushFileStores(base: string, bucket: Bucket, local: LocalFs, path: string,
                       prefix: Option<string>, overwrite: bool, name: string)
    requires PushFile(base, bucket, local, path, prefix, overwrite).result.Ok?
    ensures var run := PushFile(base, bucket, local, path, prefix, overwrite);
      Find(run.bucket, run.result.value.name) == Some(run.result.value) &&
      (name != run.result.value.name ==> Find(run.bucket, name) == Find(bucket, name))
  {
    var run := PushFile(base, bucket, local, path, prefix, overwrite);
    FindAfterUpload(bucket, run.result.value);
    if name != run.result.value.name {
      FindOtherAfterUpload(bucket, run.result.value, name);
    }
  }

  /** The existence test lists by prefix: an object whose name merely extends the remote path blocks the push too. */
  lemma PushFileBlockedByLongerName(base: string, bucket: Bucket, local: LocalFs, path: string, other: RemoteObject)
    requires !IsAbs(path) && IsFile(local, path)
    requires other in bucket && other.name == PushRemotePath(base, path) + ".bak"
    ensures PushFile(base, bucket, local, path, None, false).result == Err(RuntimeError)
  {
    var rp := PushRemotePath(base, path);
    assert other.name[..|rp|] == rp;
    assert other in ListObjects(bucket, rp);
  }

  /** The older wrapper: a fixed base path, the bucket and the local files it reads and writes. */
  class LegacyRemoteStorage {
    const remoteBasePath: string
    var bucket: Bucket
    var local: LocalFs

    constructor(basePath: string, bucket: Bucket, local: LocalFs)
      ensures remoteBasePath == basePath && this.bucket == bucket && this.local == local
    {
      remoteBasePath := basePath;
      this.bucket := bucket;
      this.local := local;
    }

    method PullFileInto(remotePath: string, localBaseDir: Option<string>, overwrite: bool)
      returns (r: Result<Option<RemoteObject>>)
      modifies this`local
      ensures var run := PullFile(remoteBasePath, bucket, old(local), remotePath, localBaseDir, overwrite);
        r == run.result && local == run.local
    {
      var dp := DownloadPath(localBaseDir, remotePath);
      if PathExists(local, dp) && !overwrite {
        return Ok(None);
      }
      var found := Find(bucket, SlashJoin(remoteBasePath, remotePath));
      if found.None? {
        return Err(ObjectDoesNotExist);
      }
      var o := found.value;
      var d := Dirname(dp);
      if d == [] {
        return Err(FileNotFoundError);
      }
      local := MakeDirs(local, d);
      local := local.(files := local.files[dp := FileInfo(o.size, o.hash)]);
      return Ok(Some(o));
    }

    /** `pull_directory`: the listing, then the loop of `pull_file` calls. */
    method PullDirectoryInto(remoteDir: string, localBaseDir: Option<string>, overwrite: bool)
      returns (r: Result<seq<RemoteObject>>)
      modifies this`local
      ensures var run := PullDirectory(remoteBasePath, bucket, old(local), remoteDir, localBaseDir, overwrite);
        r == run.result && local == run.local
    {
      var objs := ListObjects(bucket, SlashJoin(remoteBasePath, remoteDir));
      if objs == [] {
        return Ok([]);
      }
      r := PullEachInto(objs, localBaseDir, overwrite);
    }

    /** The loop of `pull_directory`, collecting what each `pull_file` downloaded. */
    method PullEachInto(objs: seq<RemoteObject>, localBaseDir: Option<string>, overwrite: bool)
      returns (r: Result<seq<RemoteObject>>)
      modifies this`local
      ensures PullEach(old(local), objs, PullRelative(remoteBasePath, bucket, localBaseDir, overwrite)) == PullDirRun(r, local)
    {
      ghost var local0 := local;
      ghost var pull := PullRelative(remoteBasePath, bucket, localBaseDir, overwrite);
      var downloaded: seq<RemoteObject> := [];
      var i := 0;
      while i < |objs|
        invariant 0 <= i <= |objs|
        invariant PullEach(local0, objs[..i], pull) == PullDirRun(Ok(downloaded), local)
      {
        PullEachStep(local0, objs, pull, i);
        ghost var before := local;
        var pulled := PullFileInto(RelativeName(remoteBasePath, objs[i]), localBaseDir, overwrite);
        assert pull(before, objs[i]) == PullFileRun(pulled, local);
        if pulled.Err? {
          PullEachStops(local0, objs, pull, i + 1);
          return Err(pulled.error);
        }
        downloaded := downloaded + Downloaded(PullFileRun(pulled, local));
        i := i + 1;
      }
      assert objs[..i] == objs;
      return Ok(downloaded);
    }

    /** `pull`: a single file first, the directory when no such object exists; other errors propagate. */
    method PullInto(path: string, localBaseDir: Option<string>, overwrite: bool)
      returns (r: Result<seq<RemoteObject>>)
      modifies this`local
      ensures var run := PullPath(remoteBasePath, bucket, old(local), path, localBaseDir, overwrite);
        r == run.result && local == run.local
    {
      ghost var local0 := local;
      var single := PullFileInto(path, localBaseDir, overwrite);
      if single == Err(ObjectDoesNotExist) {
        assert local == local0;
        r := PullDirectoryInto(path, localBaseDir, overwrite);
      } else if single.Err? {
        r := Err(single.error);
      } else {
        r := Ok(if single.value.Some? then [single.value.value] else []);
      }
    }

    method PushFileFrom(path: string, prefix: Option<string>, overwrite: bool) returns (r: Result<RemoteObject>)
      modifies this`bucket
      ensures var run := PushFile(remoteBasePath, old(bucket), local, path, prefix, overwrite);
        r == run.result && bucket == run.bucket
    {
      var lp := PushLocalPath(path, prefix);
      if lp.Err? {
        return Err(lp.error);
      }
      if !IsFile(local, lp.value) {
        return Err(FileNotFoundError);
      }
      var rp := PushRemotePath(remoteBasePath, lp.value);
      if ListObjects(bucket, rp) != [] && !overwrite {
        return Err(RuntimeError);
      }
      var obj := RemoteObject(rp, local.files[lp.value].size, local.files[lp.value].hash);
      bucket := Upload(bucket, obj);
      return Ok(obj);
    }
  }
}
