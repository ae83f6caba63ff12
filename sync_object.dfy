/**
 * `SyncObject` of src/accsr/remote_storage.py: a snapshot of the pairing of one
 * local path with one remote object. The local file system is a snapshot of
 * regular files (size and md5 hash) and a set of directory paths; the md5
 * function itself is not modelled, a file's hash is simply recorded with it.
 */
module SyncObjects {
  import opened Wrappers
  import opened PyStrings

  /** An opaque content digest (md5 of a local file, or a remote object's hash). */
  type Hash = string

  datatype Direction = Push | Pull

  /** What the code uses of a backend object: its full name, size in bytes and hash. */
  datatype RemoteObject = RemoteObject(name: string, size: nat, hash: Hash)

  datatype FileInfo = FileInfo(size: nat, hash: Hash)

  /** A snapshot of the local file system. */
  datatype LocalFs = LocalFs(files: map<string, FileInfo>, dirs: set<string>)

  /** `os.path.isdir` */
  predicate IsDir(fs: LocalFs, path: string) {
    path in fs.dirs
  }

  /** `os.path.isfile` */
  predicate IsFile(fs: LocalFs, path: string) {
    path in fs.files
  }

  /** `os.path.exists` */
  predicate PathExists(fs: LocalFs, path: string) {
    IsFile(fs, path) || IsDir(fs, path)
  }

  /** The object with its leading "/" removed from the name, as the constructor copies it. */
  function Normalized(o: RemoteObject): (r: RemoteObject)
    ensures r.size == o.size && r.hash == o.hash
    ensures !StartsWith(r.name, "/")
  {
    o.(name := LStrip(o.name, Slash))
  }

  datatype SyncObject = SyncObject(
    direction: Direction,
    localPath: Option<string>,
    existsLocally: bool,
    remoteObj: Option<RemoteObject>,
    remotePath: string,
    localSize: nat,
    localHash: Option<Hash>,
    remoteHash: Option<Hash>)
  {
    /** The `name` property. */
    function Name(): string {
      remotePath
    }

    predicate ExistsOnRemote() {
      remoteObj.Some?
    }

    /** True iff the file exists on both sides. */
    predicate ExistsOnTarget() {
      ExistsOnRemote() && existsLocally
    }

    /** The `equal_md5_hash_sum` property: hashes are only compared when both sides exist. */
    predicate EqualMd5HashSum() {
      ExistsOnTarget() && localHash == remoteHash
    }

    /** `get_bytes_transferred`: the local size for push, the remote size for pull. */
    function BytesTransferred(): (r: Result<nat>)
      ensures r.Ok? <==> (direction == Push && existsLocally) || (direction == Pull && remoteObj.Some?)
      ensures r.Err? ==> r.error == FileNotFoundError
      ensures r.Ok? && direction == Push ==> r.value == localSize
      ensures r.Ok? && direction == Pull ==> r.value == remoteObj.value.size
    {
      match direction
      case Push => if existsLocally then Ok(localSize) else Err(FileNotFoundError)
      case Pull => if remoteObj.Some? then Ok(remoteObj.value.size) else Err(FileNotFoundError)
    }

    /**
     * What every constructed SyncObject satisfies: the remote path equals the name of
     * the remote object when there is one and never starts with "/"; local size and
     * hash are only recorded for an existing local file; there is a local path or a
     * remote object; a remote hash exactly when there is a remote object.
     */
    predicate Valid() {
      && !StartsWith(remotePath, "/")
      && (remoteObj.Some? ==> remoteObj.value.name == remotePath)
      && (localPath.Some? || remoteObj.Some?)
      && (existsLocally ==> localPath.Some? && localHash.Some?)
      && (!existsLocally ==> localSize == 0 && localHash.None?)
      && (remoteHash.Some? <==> remoteObj.Some?)
    }
  }

  /**
   * `SyncObject.__init__` together with `set_local_path`. The constructor raises
   *  - FileExistsError when the local path is an existing directory (checked first),
   *  - ValueError when there is neither a local path nor a remote object,
   *  - ValueError when both a remote path and a remote object are given and their
   *    names, with leading "/" removed, differ,
   *  - ValueError when there is a local path but neither remote path nor remote object,
   *  - ValueError when an overriding hash is given without a remote object.
   */
  function NewSyncObject(
    fs: LocalFs,
    direction: Direction,
    localPath: Option<string>,
    remoteObj: Option<RemoteObject>,
    remotePath: Option<string>,
    overriddenHash: Option<Hash>): (r: Result<SyncObject>)
    ensures r == Err(FileExistsError) <==> localPath.Some? && IsDir(fs, localPath.value)
    ensures r.Ok? <==>
      && !(localPath.Some? && IsDir(fs, localPath.value))
      && (localPath.Some? || remoteObj.Some?)
      && (remotePath.Some? || remoteObj.Some?)
      && (remotePath.Some? && remoteObj.Some? ==>
            LStrip(remotePath.value, Slash) == LStrip(remoteObj.value.name, Slash))
      && (overriddenHash.Some? ==> remoteObj.Some?)
    ensures r.Err? ==> r.error in {FileExistsError, ValueError}
    ensures r.Ok? ==> r.value.Valid()
    ensures r.Ok? ==> r.value.direction == direction && r.value.localPath == localPath
    ensures r.Ok? ==> r.value.remoteObj == (if remoteObj.Some? then Some(Normalized(remoteObj.value)) else None)
    ensures r.Ok? && remotePath.Some? ==> r.value.remotePath == LStrip(remotePath.value, Slash)
    ensures r.Ok? ==> (r.value.existsLocally <==> localPath.Some? && IsFile(fs, localPath.value))
    ensures r.Ok? && r.value.existsLocally ==>
      r.value.localSize == fs.files[localPath.value].size && r.value.localHash == Some(fs.files[localPath.value].hash)
    ensures r.Ok? && remoteObj.Some? ==>
      r.value.remoteHash == Some(if overriddenHash.Some? then overriddenHash.value else remoteObj.value.hash)
  {
    var rp := if remotePath.Some? then Some(LStrip(remotePath.value, Slash)) else None;
    var ro := if remoteObj.Some? then Some(Normalized(remoteObj.value)) else None;
    if localPath.Some? && IsDir(fs, localPath.value) then Err(FileExistsError)
    else if localPath.None? && ro.None? then Err(ValueError)
    else if rp.Some? && ro.Some? && ro.value.name != rp.value then Err(ValueError)
    else if rp.None? && ro.None? then Err(ValueError)
    else if overriddenHash.Some? && ro.None? then Err(ValueError)
    else
      var present := localPath.Some? && IsFile(fs, localPath.value);
      Ok(SyncObject(
        direction,
        localPath,
        present,
        ro,
        if rp.Some? then rp.value else ro.value.name,
        if present then fs.files[localPath.value].size else 0,
        if present then Some(fs.files[localPath.value].hash) else None,
        if overriddenHash.Some? then overriddenHash else if ro.Some? then Some(ro.value.hash) else None))
  }

  /** Equal hashes are only ever reported for an object present on both sides. */
  lemma EqualHashMeansBothSides(o: SyncObject)
    ensures o.EqualMd5HashSum() ==> o.existsLocally && o.ExistsOnRemote()
    ensures !o.existsLocally || !o.ExistsOnRemote() ==> !o.ExistsOnTarget() && !o.EqualMd5HashSum()
  {
  }

  /**
   * A valid object that exists on both sides with no overriding hash compares the local
   * file's hash with the remote object's hash.
   */
  lemma {:induction false} ConstructedHashesCompare(fs: LocalFs, d: Direction, lp: string, ro: RemoteObject)
    requires IsFile(fs, lp) && !IsDir(fs, lp)
    ensures var o := NewSyncObject(fs, d, Some(lp), Some(ro), None, None);
      o.Ok? && (o.value.EqualMd5HashSum() <==> fs.files[lp].hash == ro.hash)
  {
  }

  /** The directories `os.makedirs(d)` leaves in place: `d` and each of its ancestors. */
  function Ancestry(d: string): (r: set<string>)
    ensures d != [] ==> d in r
    ensures forall a :: a in r ==> StartsWith(d, a) && a != []
  {
    assert d != [] ==> d == d[..|d|];
    set i | 0 < i <= |d| && (i == |d| || d[i] == '/') :: d[..i]
  }

  /** `os.makedirs(d, exist_ok=True)` for a non-empty `d`. */
  function MakeDirs(fs: LocalFs, d: string): (r: LocalFs)
    ensures r.files == fs.files && r.dirs == fs.dirs + Ancestry(d)
  {
    fs.(dirs := fs.dirs + Ancestry(d))
  }
}
