/**
 * The path and filter rules of `RemoteStorage` in src/accsr/remote_storage.py,
 * as pure functions of the remote base path they read. Paths are posix:
 * `os.sep` is "/", so the separator replacement of `get_push_remote_path` is
 * the identity and that method coincides with `_full_remote_path`.
 */
module StoragePaths {
  import opened Wrappers
  import opened PyStrings
  import opened SyncObjects

  /** A compiled regular expression, seen through `pattern.match(text) is not None`. */
  type Regex = string -> bool

  /**
   * `set_remote_base_path` as written: None becomes "", otherwise
   * `path.strip().lstrip("/")` followed by one more `strip()`.
   */
  function NormalizeBasePathAsWritten(path: Option<string>): (r: string)
    ensures path.None? ==> r == []
    ensures r == [] || (r[0] !in Whitespace && r[|r| - 1] !in Whitespace)
  {
    if path.None? then []
    else Strip(LStrip(Strip(path.value, Whitespace), Slash), Whitespace)
  }

  /** The input on which the source's normaliser returns a base path that starts with "/". */
  lemma NormalizeBasePathLeavesSlash()
    ensures NormalizeBasePathAsWritten(Some("/ /a")) == "/a"
  {
    assert Strip("/ /a", Whitespace) == "/ /a" by {
      BlankFacts();
      StripKeeps("/ /a", Whitespace);
    }
    assert LStrip("/ /a", Slash) == " /a" by {
      assert "/ /a"[1..] == " /a";
      LStripOne("/ /a", Slash);
    }
    assert Strip(" /a", Whitespace) == "/a" by {
      BlankFacts();
      assert " /a"[1..] == "/a";
      LStripOne(" /a", Whitespace);
      RStripStopsAt("/a", Whitespace);
    }
    NormalizeSteps("/ /a", " /a", "/a");
  }

  /** The three stripping steps of the source's normaliser, one at a time. */
  lemma NormalizeSteps(p: string, t: string, u: string)
    requires Strip(p, Whitespace) == p && LStrip(p, Slash) == t && Strip(t, Whitespace) == u
    ensures NormalizeBasePathAsWritten(Some(p)) == u
  {
  }

  /** A blank is a blank; a slash and a letter are not. */
  lemma BlankFacts()
    ensures ' ' in Whitespace && '/' !in Whitespace && 'a' !in Whitespace
  {
  }

  /**
   * `set_remote_base_path` as its comment intends ("paths starting with '/' do not
   * work"): leading slashes and blanks are removed together, so no leading "/" survives.
   */
  function NormalizeBasePath(path: Option<string>): (r: string)
    ensures path.None? ==> r == []
    ensures !StartsWith(r, "/")
    ensures r == [] || (r[0] !in Whitespace && r[|r| - 1] !in Whitespace)
  {
    if path.None? then [] else StripLeadingSlashes(path.value, Whitespace)
  }

  /** Strip blanks `ws`, then leading slashes and blanks together, then trailing blanks. */
  function StripLeadingSlashes(s: string, ws: set<char>): (r: string)
    ensures !StartsWith(r, "/")
    ensures r == [] || (r[0] !in ws && r[|r| - 1] !in ws)
  {
    var x := LStrip(Strip(s, ws), Slash + ws);
    var r := RStrip(x, ws);
    assert r != [] ==> r[0] == x[0];
    r
  }

  /** Stripping `b` alone, when what remains does not start with an `a` character, is stripping `a + b`. */
  lemma {:induction false} LStripUnionTail(t: string, a: set<char>, b: set<char>)
    requires LStrip(t, b) == [] || LStrip(t, b)[0] !in a
    ensures LStrip(t, a + b) == LStrip(t, b)
  {
    if t != [] && t[0] in b {
      LStripUnionTail(t[1..], a, b);
    }
  }

  /** Stripping `a` then `b` is stripping `a + b` when what remains does not start with an `a` character. */
  lemma {:induction false} LStripUnion(t: string, a: set<char>, b: set<char>)
    requires LStrip(LStrip(t, a), b) == [] || LStrip(LStrip(t, a), b)[0] !in a
    ensures LStrip(t, a + b) == LStrip(LStrip(t, a), b)
  {
    if t != [] && t[0] in a {
      LStripUnion(t[1..], a, b);
    } else {
      LStripUnionTail(t, a, b);
    }
  }

  /** Wherever the source's normaliser already achieves its goal, the corrected one agrees with it. */
  lemma {:induction false} NormalizeBasePathAgrees(path: Option<string>)
    requires var w := NormalizeBasePathAsWritten(path); w == [] || w[0] != '/'
    ensures NormalizeBasePath(path) == NormalizeBasePathAsWritten(path)
  {
    if path.Some? {
      StripLeadingSlashesAgrees(Strip(path.value, Whitespace), Whitespace);
    }
  }

  /**
   * On a blank-stripped `t`, stripping slashes and blanks together agrees with
   * lstrip("/") followed by strip whenever the latter leaves no leading "/".
   */
  lemma {:induction false} StripLeadingSlashesAgrees(t: string, ws: set<char>)
    requires var w := RStrip(LStrip(LStrip(t, Slash), ws), ws); w == [] || w[0] != '/'
    ensures RStrip(LStrip(t, Slash + ws), ws) == RStrip(LStrip(LStrip(t, Slash), ws), ws)
  {
    var r := LStrip(LStrip(t, Slash), ws);
    var w := RStrip(r, ws);
    assert r == [] || r[0] !in Slash by {
      if r != [] {
        assert r[0] !in ws;
        assert w != [];
        assert w[0] == r[0];
      }
    }
    LStripUnion(t, Slash, ws);
  }

  /**
   * `_full_remote_path`: the base path and the relative path joined by "/", without
   * leading "/". With an empty base the relative path is used as it is (minus leading "/").
   */
  function FullRemotePath(base: string, remotePath: string): (r: string)
    ensures !StartsWith(r, "/")
    ensures base == [] ==> r == LStrip(remotePath, Slash)
    ensures base != [] && !StartsWith(base, "/") ==> r == base + "/" + remotePath
  {
    LStrip(SlashJoin(base, remotePath), Slash)
  }

  /** `os.sep` on a posix system. */
  const Sep: char := '/'

  /**
   * `get_push_remote_path`: base and local path joined by "/", `os.sep` replaced by "/",
   * without leading "/".
   */
  function GetPushRemotePath(base: string, localPath: string): (r: string)
    ensures !StartsWith(r, "/")
  {
    LStrip(Replace(SlashJoin(base, localPath), [Sep], "/"), Slash)
  }

  /** Replacing a pattern by itself changes nothing. */
  lemma {:induction false} ReplaceSelf(s: string, x: string)
    requires x != []
    ensures Replace(s, x, x) == s
    decreases |s|
  {
    if |s| >= |x| {
      if s[..|x|] == x {
        ReplaceSelf(s[|x|..], x);
        assert s == x + s[|x|..];
      } else {
        ReplaceSelf(s[1..], x);
        assert s == [s[0]] + s[1..];
      }
    }
  }

  /** On posix the push remote path of a local path is its full remote path. */
  lemma PushRemotePathIsFull(base: string, localPath: string)
    ensures GetPushRemotePath(base, localPath) == FullRemotePath(base, localPath)
  {
    ReplaceSelf(SlashJoin(base, localPath), [Sep]);
  }

  /** `_get_remote_path`: the object's name without leading "/". */
  function RemotePath(obj: RemoteObject): (r: string)
    ensures !StartsWith(r, "/")
    ensures EndsWith(obj.name, r)
  {
    LStrip(obj.name, Slash)
  }

  /**
   * `_get_relative_remote_path`: the name with as many characters dropped as the base
   * path has (whether or not the name starts with it), then leading "/" removed.
   */
  function RelativeRemotePath(base: string, obj: RemoteObject): (r: string)
    ensures !StartsWith(r, "/")
    ensures EndsWith(obj.name, r)
  {
    LStrip(DropPrefix(obj.name, |base|), Slash)
  }

  /** Relative and full remote paths are inverse: what `FullRemotePath` built, `RelativeRemotePath` recovers. */
  lemma {:induction false} RelativeOfFull(base: string, rel: string, size: nat, hash: Hash)
    requires base != [] && !StartsWith(base, "/")
    ensures RelativeRemotePath(base, RemoteObject(FullRemotePath(base, rel), size, hash)) == LStrip(rel, Slash)
  {
    var name := FullRemotePath(base, rel);
    assert name == base + "/" + rel;
    assert DropPrefix(name, |base|) == "/" + rel;
    assert ("/" + rel)[1..] == rel;
  }

  /** The object is the file at `full`, or lies in the directory `full`. */
  predicate InSelection(path: string, full: string) {
    path == full || StartsWith(path, full + "/")
  }

  /**
   * `_listed_due_to_name_collision`: an object listed under the prefix `full` that is
   * neither the file `full` nor inside the directory `full`. A prefix that is empty or
   * ends in "/" never yields false positives.
   */
  function ListedDueToNameCollision(full: string, obj: RemoteObject): (r: bool)
    ensures full == [] || EndsWith(full, "/") ==> !r
    ensures full != [] && !EndsWith(full, "/") ==> (r <==> !InSelection(RemotePath(obj), LStrip(full, Slash)))
  {
    if EndsWith(full, "/") || full == [] then false
    else
      var f := LStrip(full, Slash);
      var p := RemotePath(obj);
      !(StartsWith(p, f + "/") || p == f)
  }

  /**
   * For an object the backend listed because its path starts with `full`, the check
   * reports a false positive exactly when the next character is not a path separator
   * ("dir_subfix" under "dir").
   */
  lemma {:induction false} NameCollisionIsSiblingPrefix(full: string, obj: RemoteObject)
    requires full != [] && !EndsWith(full, "/") && !StartsWith(full, "/")
    requires StartsWith(RemotePath(obj), full)
    ensures ListedDueToNameCollision(full, obj) <==>
      |RemotePath(obj)| > |full| && RemotePath(obj)[|full|] != '/'
  {
    var p := RemotePath(obj);
    LStripStopsAt(full, Slash);
    if |p| > |full| && p[|full|] == '/' {
      assert p[..|full| + 1] == full + "/";
    }
    if StartsWith(p, full + "/") {
      assert p[|full|] == (full + "/")[|full|];
    }
  }

  /** `_get_destination_path`: the relative remote path placed under the local base directory. */
  function DestinationPath(base: string, localBaseDir: string, obj: RemoteObject): (r: string)
    ensures EndsWith(r, RelativeRemotePath(base, obj))
    ensures StartsWith(r, localBaseDir)
  {
    PathJoin(localBaseDir, RelativeRemotePath(base, obj))
  }

  /**
   * `_should_skip`: skipped when an include pattern does not match or an exclude
   * pattern matches; exclusion takes precedence, and without patterns nothing is skipped.
   */
  function ShouldSkip(file: string, includeRegex: Option<Regex>, excludeRegex: Option<Regex>): (r: bool)
    ensures excludeRegex.Some? && excludeRegex.value(file) ==> r
    ensures includeRegex.None? && excludeRegex.None? ==> !r
    ensures r <==> (includeRegex.Some? && !includeRegex.value(file)) || (excludeRegex.Some? && excludeRegex.value(file))
  {
    if includeRegex.Some? && !includeRegex.value(file) then true
    else if excludeRegex.Some? && excludeRegex.value(file) then true
    else false
  }

  /** `_handle_deprecated_path_regex`: the deprecated pattern replaces a missing includeRegex pattern. */
  function HandleDeprecatedPathRegex(includeRegex: Option<Regex>, pathRegex: Option<Regex>): (r: Result<Option<Regex>>)
    ensures r.Err? <==> includeRegex.Some? && pathRegex.Some?
    ensures r.Err? ==> r.error == ValueError
    ensures r.Ok? ==> r.value == (if pathRegex.Some? then pathRegex else includeRegex)
  {
    if pathRegex.Some? then
      if includeRegex.Some? then Err(ValueError) else Ok(pathRegex)
    else Ok(includeRegex)
  }

  /** `replace("\\", "/")`, the windows-to-linux separator conversion. */
  function ToLinuxPath(p: string): string {
    Replace(p, "\\", "/")
  }

  /** A string without backslashes is left as it is by the separator conversion. */
  lemma {:induction false} ToLinuxPathNoBackslash(p: string)
    requires '\\' !in p
    ensures ToLinuxPath(p) == p
    decreases |p|
  {
    if p != [] {
      assert p[..1] == [p[0]];
      assert p == [p[0]] + p[1..];
      ToLinuxPathNoBackslash(p[1..]);
    }
  }

  /**
   * The prefix `pull` strips from an absolute remote path: the given one, or the local
   * base directory when it is absolute and `strip_abs_local_base_dir` is set (both
   * together are refused).
   */
  function PullStripPrefix(localBaseDir: string, stripAbspathPrefix: Option<string>, stripAbsLocalBaseDir: bool)
    : (r: Result<Option<string>>)
    ensures r.Err? <==> stripAbsLocalBaseDir && IsAbs(localBaseDir) && stripAbspathPrefix.Some?
    ensures r.Err? ==> r.error == ValueError
    ensures r.Ok? && stripAbsLocalBaseDir && IsAbs(localBaseDir) ==> r.value == Some(localBaseDir)
    ensures r.Ok? && !(stripAbsLocalBaseDir && IsAbs(localBaseDir)) ==> r.value == stripAbspathPrefix
  {
    if stripAbsLocalBaseDir && IsAbs(localBaseDir) then
      if stripAbspathPrefix.Some? then Err(ValueError) else Ok(Some(localBaseDir))
    else Ok(stripAbspathPrefix)
  }

  /**
   * The remote path `pull` works with, as written: an absolute path with a prefix must
   * start with the prefix (without trailing "/") as a string, and loses it together with
   * one more character.
   */
  function ResolvePullRemotePathAsWritten(
    remotePath: string, localBaseDir: string, stripAbspathPrefix: Option<string>, stripAbsLocalBaseDir: bool)
    : (r: Result<string>)
    ensures r.Err? ==> r.error == ValueError
    ensures var pre := PullStripPrefix(localBaseDir, stripAbspathPrefix, stripAbsLocalBaseDir);
      && (pre.Err? ==> r.Err?)
      && (pre.Ok? && (pre.value.None? || !IsAbs(remotePath)) ==> r == Ok(remotePath))
      && (pre.Ok? && pre.value.Some? && IsAbs(remotePath) ==>
            (r.Ok? <==> StartsWith(ToLinuxPath(remotePath), RStrip(ToLinuxPath(pre.value.value), Slash))))
    ensures r.Ok? && r.value != remotePath ==> EndsWith(ToLinuxPath(remotePath), r.value)
  {
    match PullStripPrefix(localBaseDir, stripAbspathPrefix, stripAbsLocalBaseDir)
    case Err(e) => Err(e)
    case Ok(prefix) =>
      if prefix.Some? && IsAbs(remotePath) then
        var rp := ToLinuxPath(remotePath);
        var p := RStrip(ToLinuxPath(prefix.value), Slash);
        if !StartsWith(rp, p) then Err(ValueError)
        else Ok(DropPrefix(rp, |p| + 1))
      else Ok(remotePath)
  }

  /** The input on which the raw string test cuts a sibling directory's name in the middle. */
  lemma {:induction false} ResolvePullCutsSibling()
    ensures ResolvePullRemotePathAsWritten("/data/foobar/x.txt", "", Some("/data/foo"), true) == Ok("ar/x.txt")
  {
    var rp, p := "/data/foobar/x.txt", "/data/foo";
    SiblingInput();
    assert StartsWith(rp, p);
    assert DropPrefix(rp, |p| + 1) == "ar/x.txt";
  }

  /** The corrected rule refuses the sibling directory. */
  lemma {:induction false} ResolvePullRefusesSibling()
    ensures ResolvePullRemotePath("/data/foobar/x.txt", "", Some("/data/foo"), true) == Err(ValueError)
  {
    var rp, p := "/data/foobar/x.txt", "/data/foo";
    SiblingInput();
    assert rp[9] != (p + "/")[9];
    assert !StartsWith(rp, p + "/");
  }

  /** The separators of the sibling example are already linux ones, and the prefix has no trailing "/". */
  lemma SiblingInput()
    ensures ToLinuxPath("/data/foobar/x.txt") == "/data/foobar/x.txt"
    ensures ToLinuxPath("/data/foo") == "/data/foo"
    ensures RStrip("/data/foo", Slash) == "/data/foo"
  {
    ToLinuxPathNoBackslash("/data/foobar/x.txt");
    ToLinuxPathNoBackslash("/data/foo");
  }

  /**
   * The remote path `pull` works with, as intended: an absolute path must be the prefix
   * itself or lie below it, and is then made relative to it.
   */
  function ResolvePullRemotePath(
    remotePath: string, localBaseDir: string, stripAbspathPrefix: Option<string>, stripAbsLocalBaseDir: bool)
    : (r: Result<string>)
    ensures r.Err? ==> r.error == ValueError
    ensures var pre := PullStripPrefix(localBaseDir, stripAbspathPrefix, stripAbsLocalBaseDir);
      && (pre.Err? ==> r.Err?)
      && (pre.Ok? && (pre.value.None? || !IsAbs(remotePath)) ==> r == Ok(remotePath))
      && (pre.Ok? && pre.value.Some? && IsAbs(remotePath) ==>
            (r.Ok? <==> InSelection(ToLinuxPath(remotePath), RStrip(ToLinuxPath(pre.value.value), Slash))))
  {
    match PullStripPrefix(localBaseDir, stripAbspathPrefix, stripAbsLocalBaseDir)
    case Err(e) => Err(e)
    case Ok(prefix) =>
      if prefix.Some? && IsAbs(remotePath) then
        var rp := ToLinuxPath(remotePath);
        var p := RStrip(ToLinuxPath(prefix.value), Slash);
        if rp == p then Ok([])
        else if StartsWith(rp, p + "/") then Ok(rp[|p| + 1..])
        else Err(ValueError)
      else Ok(remotePath)
  }

  /**
   * With the prefix `p`, the corrected rule accepts exactly the paths at or below `p`
   * and returns the part below it: `p + "/" + rel` resolves to `rel`, and whatever it
   * resolves to re-joins to the path.
   */
  lemma {:induction false} ResolvePullRemotePathInverse(remotePath: string, prefix: string)
    requires IsAbs(remotePath) && '\\' !in remotePath && '\\' !in prefix
    ensures var r := ResolvePullRemotePath(remotePath, "", Some(prefix), false);
      var p := RStrip(prefix, Slash);
      && (r.Ok? <==> InSelection(remotePath, p))
      && (r.Ok? && r.value != [] ==> remotePath == p + "/" + r.value)
      && (r.Ok? && r.value == [] ==> remotePath == p || remotePath == p + "/")
  {
    ToLinuxPathNoBackslash(remotePath);
    ToLinuxPathNoBackslash(prefix);
    var p := RStrip(prefix, Slash);
    if StartsWith(remotePath, p + "/") {
      assert remotePath == p + "/" + remotePath[|p| + 1..];
    }
  }

  /**
   * `Path(path).relative_to(prefix)` for normalised posix paths: "." for the prefix
   * itself, the part below it otherwise; a path outside the prefix is a ValueError.
   */
  function RelativeTo(path: string, prefix: string): (r: Result<string>)
    ensures r.Err? ==> r.error == ValueError
    ensures r.Ok? <==> path == prefix || (prefix == "/" && IsAbs(path)) || StartsWith(path, prefix + "/")
    ensures r.Ok? && r.value != "." && prefix != "/" ==> path == prefix + "/" + r.value
    ensures r.Ok? && r.value != "." && prefix == "/" ==> path == "/" + r.value
  {
    if path == prefix then Ok(".")
    else if prefix == "/" && IsAbs(path) then Ok(path[1..])
    else if StartsWith(path, prefix + "/") then Ok(path[|prefix| + 1..])
    else Err(ValueError)
  }
}
