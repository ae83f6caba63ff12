/**
 * What the scan loops of `_get_pull_summary` and `_get_push_summary`
 * (src/accsr/remote_storage.py) decide for each remote object or local file,
 * as pure functions. The `RemoteStorage` methods run these decisions in a loop
 * and feed them to `TransactionSummary.add_entry`; the functions here are their
 * specification. A constructor error of one `SyncObject` aborts the whole scan.
 */
module Planning {
  import opened Wrappers
  import opened PyStrings
  import opened SyncObjects
  import opened Summaries
  import opened StoragePaths
  import opened Buckets

  /** The optional `remote_hash_extractor` of the storage configuration. */
  type HashExtractor = Option<RemoteObject -> Hash>

  /** The inputs of one pull scan, after the remote path was resolved. */
  datatype PullScope = PullScope(
    fs: LocalFs,
    base: string,
    localBaseDir: string,
    full: string,
    includeRegex: Option<Regex>,
    excludeRegex: Option<Regex>,
    extractor: HashExtractor)

  /** The overriding hash the extractor yields for an object, if there is an extractor. */
  function Override(extractor: HashExtractor, obj: RemoteObject): Option<Hash> {
    if extractor.Some? then Some(extractor.value(obj)) else None
  }

  /** An empty object, a false positive of the prefix listing, or one filtered out by the patterns. */
  predicate PullSkipped(sc: PullScope, obj: RemoteObject) {
    obj.size == 0
    || ListedDueToNameCollision(sc.full, obj)
    || ShouldSkip(RelativeRemotePath(sc.base, obj), sc.includeRegex, sc.excludeRegex)
  }

  /**
   * One iteration of the pull scan. A kept object whose destination is an existing
   * local directory is a collision in intent, but the `SyncObject` constructor rejects
   * that local path first, so the scan fails with FileExistsError and no entry ever
   * carries a collision.
   */
  function PullEntry(sc: PullScope, obj: RemoteObject): (r: Result<Entry>)
    ensures r.Err? ==> r.error == FileExistsError
    ensures r.Ok? ==> r.value.collidesWith.None? && r.value.skip == PullSkipped(sc, obj)
  {
    var skip := PullSkipped(sc, obj);
    var localPath := if skip then None else Some(DestinationPath(sc.base, sc.localBaseDir, obj));
    var collides := if localPath.Some? && IsDir(sc.fs, localPath.value) then Some(CollidingLocalPath(localPath.value)) else None;
    match NewSyncObject(sc.fs, Pull, localPath, Some(obj), None, Override(sc.extractor, obj))
    case Err(e) => Err(e)
    case Ok(so) => Ok(Entry(so, collides, skip))
  }

  /**
   * A pull entry is built unless the object is kept and its destination is a local
   * directory; it pairs the normalised object with its destination (none when skipped).
   */
  lemma PullEntryFacts(sc: PullScope, obj: RemoteObject)
    ensures var r := PullEntry(sc, obj);
      && (r.Ok? <==> PullSkipped(sc, obj) || !IsDir(sc.fs, DestinationPath(sc.base, sc.localBaseDir, obj)))
      && (r.Ok? ==>
        && r.value.obj.Valid()
        && r.value.obj.direction == Pull
        && r.value.obj.remoteObj == Some(Normalized(obj))
        && r.value.obj.remotePath == RemotePath(obj)
        && r.value.obj.localPath == (if PullSkipped(sc, obj) then None else Some(DestinationPath(sc.base, sc.localBaseDir, obj))))
  {
  }

  /** A scan loop: the entries built for the items in order, or the first error. */
  function Scan<X>(xs: seq<X>, entry: X -> Result<Entry>): Result<seq<Entry>> {
    if xs == [] then Ok([])
    else
      match Scan(xs[..|xs| - 1], entry)
      case Err(e) => Err(e)
      case Ok(es) =>
        match entry(xs[|xs| - 1])
        case Err(e) => Err(e)
        case Ok(e) => Ok(es + [e])
  }

  /**
   * A scan succeeds iff every item's entry can be built, and then yields exactly those
   * entries, one per item, in order; otherwise it fails with the first item's error.
   */
  lemma {:induction false} ScanEntries<X>(xs: seq<X>, entry: X -> Result<Entry>)
    ensures Scan(xs, entry).Ok? <==> forall i :: 0 <= i < |xs| ==> entry(xs[i]).Ok?
    ensures Scan(xs, entry).Ok? ==>
      && |Scan(xs, entry).value| == |xs|
      && forall i :: 0 <= i < |xs| ==> Scan(xs, entry).value[i] == entry(xs[i]).value
    ensures Scan(xs, entry).Err? ==>
      exists i :: 0 <= i < |xs| && entry(xs[i]) == Err(Scan(xs, entry).error)
  {
    if xs != [] {
      var init := xs[..|xs| - 1];
      ScanEntries(init, entry);
      assert forall i :: 0 <= i < |init| ==> xs[i] == init[i];
    }
  }

  /** One more item extends a scan that has not failed yet by that item's entry, or fails with its error. */
  lemma ScanStep<X>(xs: seq<X>, entry: X -> Result<Entry>, i: nat)
    requires i < |xs|
    ensures var p, e := Scan(xs[..i], entry), entry(xs[i]);
      Scan(xs[..i + 1], entry) == if p.Err? then p else if e.Err? then Err(e.error) else Ok(p.value + [e.value])
  {
    assert xs[..i + 1][..i] == xs[..i];
  }

  /** Once a scan has failed, further items change nothing: the first error is the result. */
  lemma {:induction false} ScanStops<X>(xs: seq<X>, entry: X -> Result<Entry>, k: nat)
    requires k <= |xs| && Scan(xs[..k], entry).Err?
    ensures Scan(xs, entry) == Scan(xs[..k], entry)
    decreases |xs| - k
  {
    if k < |xs| {
      assert xs[..|xs| - 1][..k] == xs[..k];
      ScanStops(xs[..|xs| - 1], entry, k);
    } else {
      assert xs[..k] == xs;
    }
  }

  /** The pull scan over a listing. */
  function PlanPull(sc: PullScope, objs: seq<RemoteObject>): Result<seq<Entry>> {
    Scan(objs, o => PullEntry(sc, o))
  }

  /** The pull scan, one object at a time. */
  lemma PlanPullStep(sc: PullScope, objs: seq<RemoteObject>, i: nat)
    requires i < |objs|
    ensures var p, e := PlanPull(sc, objs[..i]), PullEntry(sc, objs[i]);
      PlanPull(sc, objs[..i + 1]) == if p.Err? then p else if e.Err? then Err(e.error) else Ok(p.value + [e.value])
  {
    ScanStep(objs, o => PullEntry(sc, o), i);
  }

  /** A pull scan that failed on a prefix of the listing fails with that error. */
  lemma PlanPullStops(sc: PullScope, objs: seq<RemoteObject>, k: nat)
    requires k <= |objs| && PlanPull(sc, objs[..k]).Err?
    ensures PlanPull(sc, objs) == PlanPull(sc, objs[..k])
  {
    ScanStops(objs, o => PullEntry(sc, o), k);
  }

  /** Pulling onto an existing local directory aborts the scan with FileExistsError, and that is its only error. */
  lemma PullOntoDirectoryFails(sc: PullScope, objs: seq<RemoteObject>, i: nat)
    requires i < |objs| && !PullSkipped(sc, objs[i])
    requires IsDir(sc.fs, DestinationPath(sc.base, sc.localBaseDir, objs[i]))
    ensures PlanPull(sc, objs) == Err(FileExistsError)
  {
    ScanEntries(objs, o => PullEntry(sc, o));
    assert PullEntry(sc, objs[i]).Err?;
  }

  /** A successful scan whose entries never carry a collision records none. */
  lemma ScanNoCollisions<X>(xs: seq<X>, entry: X -> Result<Entry>)
    requires Scan(xs, entry).Ok?
    requires forall i :: 0 <= i < |xs| && entry(xs[i]).Ok? ==> entry(xs[i]).value.collidesWith.None?
    ensures Collisions(Scan(xs, entry).value) == map[]
  {
    ScanEntries(xs, entry);
    var es := Scan(xs, entry).value;
    forall i | 0 <= i < |es|
      ensures Classify(es[i]) != Collided
    {
      assert es[i] == entry(xs[i]).value;
    }
    CollisionsNonEmpty(es);
  }

  /** A successful pull scan records no unresolvable collision. */
  lemma PullPlanHasNoCollisions(sc: PullScope, objs: seq<RemoteObject>)
    requires PlanPull(sc, objs).Ok?
    ensures Collisions(PlanPull(sc, objs).value) == map[]
  {
    var entry := (o: RemoteObject) => PullEntry(sc, o);
    forall i | 0 <= i < |objs|
      ensures entry(objs[i]).Ok? ==> entry(objs[i]).value.collidesWith.None?
    {
      var e := PullEntry(sc, objs[i]);
      assert entry(objs[i]) == e;
    }
    ScanNoCollisions(objs, entry);
  }

  /** The inputs of one push scan, after the path was made relative to the prefix. */
  datatype PushScope = PushScope(
    fs: LocalFs,
    base: string,
    includeRegex: Option<Regex>,
    excludeRegex: Option<Regex>,
    extractor: HashExtractor,
    bucket: Bucket)

  /** The listed objects that are not false positives of the prefix listing, in listing order. */
  function TrueMatches(full: string, objs: seq<RemoteObject>): (r: seq<RemoteObject>)
    ensures |r| <= |objs|
    ensures forall o :: o in r <==> o in objs && !ListedDueToNameCollision(full, o)
  {
    if objs == [] then []
    else
      var rest := TrueMatches(full, objs[1..]);
      assert objs == [objs[0]] + objs[1..];
      (if ListedDueToNameCollision(full, objs[0]) then [] else [objs[0]]) + rest
  }

  /** The matches of the remote path the file is pushed to. */
  function PushMatches(sc: PushScope, file: string): seq<RemoteObject> {
    var rp := GetPushRemotePath(sc.base, file);
    TrueMatches(rp, ListObjects(sc.bucket, rp))
  }

  /**
   * One iteration of the push scan. More than one true match is a collision (a remote
   * directory where the local side has a file); exactly one is the remote counterpart;
   * the constructor then insists that its name is the remote path.
   */
  function PushEntry(sc: PushScope, file: string): (r: Result<Entry>)
    ensures r.Err? ==> r.error in {FileExistsError, ValueError}
    ensures r.Ok? ==> r.value.skip == ShouldSkip(file, sc.includeRegex, sc.excludeRegex)
    ensures r.Ok? ==> (r.value.collidesWith.Some? <==> |PushMatches(sc, file)| > 1)
  {
    var skip := ShouldSkip(file, sc.includeRegex, sc.excludeRegex);
    var rp := GetPushRemotePath(sc.base, file);
    var m := TrueMatches(rp, ListObjects(sc.bucket, rp));
    var collides := if |m| > 1 then Some(CollidingObjects(m)) else None;
    var ro := if |m| == 1 then Some(m[0]) else None;
    var over := if ro.Some? then Override(sc.extractor, ro.value) else None;
    match NewSyncObject(sc.fs, Push, Some(file), ro, Some(rp), over)
    case Err(e) => Err(e)
    case Ok(so) => Ok(Entry(so, collides, skip))
  }

  /**
   * A push entry fails with FileExistsError exactly for a local directory; otherwise it
   * is built unless the single true match has a different name than the remote path.
   * Several matches are recorded as the collision, a single one as the counterpart.
   */
  lemma PushEntryFacts(sc: PushScope, file: string)
    ensures var r, m, rp := PushEntry(sc, file), PushMatches(sc, file), GetPushRemotePath(sc.base, file);
      && (r == Err(FileExistsError) <==> IsDir(sc.fs, file))
      && (|m| != 1 ==> (r.Ok? <==> !IsDir(sc.fs, file)))
      && (|m| == 1 ==> (r.Ok? <==> !IsDir(sc.fs, file) && RemotePath(m[0]) == rp))
      && (r.Ok? ==>
        && r.value.obj.Valid()
        && r.value.obj.direction == Push
        && r.value.obj.localPath == Some(file)
        && r.value.obj.remotePath == rp
        && r.value.collidesWith == (if |m| > 1 then Some(CollidingObjects(m)) else None)
        && r.value.obj.remoteObj == (if |m| == 1 then Some(Normalized(m[0])) else None))
  {
    var rp := GetPushRemotePath(sc.base, file);
    LStripIdempotent(Replace(SlashJoin(sc.base, file), [Sep], "/"), Slash);
    assert LStrip(rp, Slash) == rp;
  }

  /** The push scan over the candidate files; no candidate at all is a FileNotFoundError. */
  function PlanPush(sc: PushScope, files: seq<string>): (r: Result<seq<Entry>>)
    ensures files == [] ==> r == Err(FileNotFoundError)
  {
    if files == [] then Err(FileNotFoundError) else ScanPush(sc, files)
  }

  /** The scan loop of the push over the candidate files. */
  function ScanPush(sc: PushScope, files: seq<string>): Result<seq<Entry>> {
    Scan(files, f => PushEntry(sc, f))
  }

  /** The push scan, one file at a time. */
  lemma ScanPushStep(sc: PushScope, files: seq<string>, i: nat)
    requires i < |files|
    ensures var p, e := ScanPush(sc, files[..i]), PushEntry(sc, files[i]);
      ScanPush(sc, files[..i + 1]) == if p.Err? then p else if e.Err? then Err(e.error) else Ok(p.value + [e.value])
  {
    ScanStep(files, f => PushEntry(sc, f), i);
  }

  /** A push scan that failed on a prefix of the files fails with that error. */
  lemma ScanPushStops(sc: PushScope, files: seq<string>, k: nat)
    requires k <= |files| && ScanPush(sc, files[..k]).Err?
    ensures ScanPush(sc, files) == ScanPush(sc, files[..k])
  {
    ScanStops(files, f => PushEntry(sc, f), k);
  }

  /**
   * A file whose remote path is a remote directory holding several objects is recorded
   * as an unresolvable collision, and the summary then refuses to sync.
   */
  lemma PushOntoRemoteDirectoryCollides(sc: PushScope, files: seq<string>, i: nat)
    requires i < |files| && PlanPush(sc, files).Ok?
    requires !ShouldSkip(files[i], sc.includeRegex, sc.excludeRegex) && |PushMatches(sc, files[i])| > 1
    ensures |Collisions(PlanPush(sc, files).value)| != 0
  {
    var es := PlanPush(sc, files).value;
    ScanEntries(files, f => PushEntry(sc, f));
    assert es[i] == PushEntry(sc, files[i]).value;
    assert Classify(es[i]) == Collided;
    CollisionsNonEmpty(es);
  }

  /**
   * When listing the remote path "a" yields only "a/b" (a descendant), that single true
   * match is taken as the file's counterpart and the constructor's name check refuses it.
   */
  lemma {:induction false} PushDescendantOnlyMatchFails(fs: LocalFs)
    requires "a" !in fs.dirs
    ensures PushEntry(PushScope(fs, "", None, None, None, [RemoteObject("a/b", 1, "h")]), "a") == Err(ValueError)
  {
    var sc := PushScope(fs, "", None, None, None, [RemoteObject("a/b", 1, "h")]);
    DescendantExample();
    assert PushMatches(sc, "a") == [RemoteObject("a/b", 1, "h")];
    PushMismatchedMatchFails(sc, "a");
  }

  /** A single true match whose name is not the remote path makes the push scan fail with ValueError. */
  lemma PushMismatchedMatchFails(sc: PushScope, file: string)
    requires !IsDir(sc.fs, file)
    requires |PushMatches(sc, file)| == 1 && RemotePath(PushMatches(sc, file)[0]) != GetPushRemotePath(sc.base, file)
    ensures PushEntry(sc, file) == Err(ValueError)
  {
    PushEntryFacts(sc, file);
  }

  /** The push remote path of "a" is "a", and the object "a/b" is a true match of it. */
  lemma DescendantExample()
    ensures GetPushRemotePath("", "a") == "a"
    ensures TrueMatches("a", ListObjects([RemoteObject("a/b", 1, "h")], "a")) == [RemoteObject("a/b", 1, "h")]
    ensures RemotePath(RemoteObject("a/b", 1, "h")) == "a/b"
  {
    PushRemotePathIsFull("", "a");
    assert "/a"[1..] == "a";
    LStripStopsAt("a/b", Slash);
    LStripStopsAt("a", Slash);
    assert "a/b"[..2] == "a/";
    var o := RemoteObject("a/b", 1, "h");
    assert !ListedDueToNameCollision("a", o);
    assert [o][1..] == [];
    assert ListObjects([o], "a") == [o];
  }

  /**
   * `Path(path).relative_to(prefix)` in the push scan: only an absolute path with a
   * non-empty prefix is rewritten, and it must lie at or below the prefix.
   */
  function PushRelativePath(path: string, localPathPrefix: Option<string>): (r: Result<string>)
    ensures r.Err? ==> r.error == ValueError
    ensures !(IsAbs(path) && localPathPrefix.Some? && localPathPrefix.value != []) ==> r == Ok(path)
    ensures IsAbs(path) && localPathPrefix.Some? && localPathPrefix.value != [] ==> r == RelativeTo(path, localPathPrefix.value)
  {
    if IsAbs(path) && localPathPrefix.Some? && localPathPrefix.value != [] then RelativeTo(path, localPathPrefix.value)
    else Ok(path)
  }
}
