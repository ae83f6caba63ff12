/**
 * The two `loading` modules: `download_file`, the same in src/accsr/loading.py
 * and src/data_access/loading.py, and the two `open_file_in_tar` variants,
 * which choose one member of a tar archive, by regular expression in accsr and
 * by name or 1-based index in data_access. An archive is the list of its
 * member names, in the order `tar.getnames()` returns them; the downloaded
 * content is a parameter, and a regular expression is the predicate its
 * `match` method computes.
 */
module Loading {
  import opened Wrappers
  import opened PyStrings
  import opened SyncObjects

  // ---------------------------------------------------------------------------
  // download_file
  // ---------------------------------------------------------------------------

  /** The downloaded content written to `output`. */
  function Store(fs: LocalFs, output: string, content: FileInfo): LocalFs {
    fs.(files := fs.files[output := content])
  }

  /**
   * `download_file` as written: an existing output is refused unless overwriting
   * is asked for, then `os.makedirs(os.path.dirname(output))` runs, which raises
   * FileNotFoundError for a bare file name, whose directory name is "". Writing
   * the download onto an existing directory raises IsADirectoryError.
   */
  function DownloadFileAsWritten(fs: LocalFs, output: string, overwrite: bool, content: FileInfo): (r: Result<LocalFs>)
    ensures PathExists(fs, output) && !overwrite ==> r == Err(FileExistsError)
    ensures r == Err(FileNotFoundError) <==> !(PathExists(fs, output) && !overwrite) && Dirname(output) == []
    ensures r == Err(IsADirectoryError) <==> !(PathExists(fs, output) && !overwrite) && Dirname(output) != [] && IsDir(fs, output)
    ensures r.Ok? <==> !(PathExists(fs, output) && !overwrite) && Dirname(output) != [] && !IsDir(fs, output)
    ensures r.Ok? ==> r.value == Store(MakeDirs(fs, Dirname(output)), output, content)
  {
    if PathExists(fs, output) && !overwrite then Err(FileExistsError)
    else if Dirname(output) == [] then Err(FileNotFoundError)
    else if IsDir(fs, output) then Err(IsADirectoryError)
    else Ok(Store(MakeDirs(fs, Dirname(output)), output, content))
  }

  /** A file name without a directory part cannot be downloaded at all. */
  lemma BareNameDownloadFails(fs: LocalFs, content: FileInfo)
    ensures DownloadFileAsWritten(fs, "data.bin", true, content) == Err(FileNotFoundError)
  {
    assert Dirname("data.bin") == [];
  }

  /**
   * `download_file` with a bare file name written to the working directory, as
   * a destination path with no directory part evidently means: an existing
   * output without `overwrite_existing` is refused, and an output that is a
   * directory cannot be written; both are raised before anything is written.
   */
  function DownloadFile(fs: LocalFs, output: string, overwrite: bool, content: FileInfo): (r: Result<LocalFs>)
    ensures r.Err? <==> (PathExists(fs, output) && !overwrite) || IsDir(fs, output)
    ensures r.Err? ==> r.error == (if PathExists(fs, output) && !overwrite then FileExistsError else IsADirectoryError)
    ensures r.Ok? ==> r.value.files == fs.files[output := content]
    ensures r.Ok? ==> fs.dirs <= r.value.dirs
    ensures r.Ok? && Dirname(output) != [] ==> Dirname(output) in r.value.dirs
  {
    if PathExists(fs, output) && !overwrite then Err(FileExistsError)
    else if IsDir(fs, output) then Err(IsADirectoryError)
    else if Dirname(output) == [] then Ok(Store(fs, output, content))
    else Ok(Store(MakeDirs(fs, Dirname(output)), output, content))
  }

  /** Where the as-written version succeeds, the corrected one does the same. */
  lemma DownloadFileAgrees(fs: LocalFs, output: string, overwrite: bool, content: FileInfo)
    requires DownloadFileAsWritten(fs, output, overwrite, content).Ok?
    ensures DownloadFile(fs, output, overwrite, content) == DownloadFileAsWritten(fs, output, overwrite, content)
  {
  }

  /** Once a download succeeded, the same download without `overwrite_existing` is refused. */
  lemma DownloadThenRefused(fs: LocalFs, output: string, overwrite: bool, content: FileInfo, again: FileInfo)
    requires DownloadFile(fs, output, overwrite, content).Ok?
    ensures DownloadFile(DownloadFile(fs, output, overwrite, content).value, output, false, again) == Err(FileExistsError)
  {
    var after := DownloadFile(fs, output, overwrite, content).value;
    assert output in after.files;
  }

  /**
   * Downloading twice with overwriting leaves the state of the second download
   * alone; onto a directory, a download fails.
   */
  lemma DownloadOverwriteLastWins(fs: LocalFs, output: string, first: FileInfo, second: FileInfo)
    ensures IsDir(fs, output) ==> DownloadFile(fs, output, true, first) == Err(IsADirectoryError)
    ensures var once := DownloadFile(fs, output, true, second);
      !IsDir(fs, output) && !EndsWith(output, "/") ==>
        var twice := DownloadFile(DownloadFile(fs, output, true, first).value, output, true, second);
        once.Ok? && twice.Ok? && twice.value.files == once.value.files && twice.value.dirs == once.value.dirs
  {
    var d := Dirname(output);
    if d != [] && !IsDir(fs, output) && !EndsWith(output, "/") {
      assert fs.dirs + Ancestry(d) + Ancestry(d) == fs.dirs + Ancestry(d);
      assert HeadLength(output) < |output|;
      assert output !in Ancestry(d);
    }
  }

  // ---------------------------------------------------------------------------
  // open_file_in_tar, src/accsr/loading.py: selection by regular expression
  // ---------------------------------------------------------------------------

  /** The `match` method of a compiled regular expression, as a yes/no answer. */
  type Regex = string -> bool

  /** `.*`, the default pattern: `re.match` finds an empty match at the start of every name. */
  function MatchAll(): Regex {
    (name: string) => true
  }

  /** A pattern without special characters: `re.match` then asks for a prefix. */
  function Literal(pattern: string): Regex {
    (name: string) => StartsWith(name, pattern)
  }

  /** `list(filter(file_regex.match, file_names))`. */
  function Matches(names: seq<string>, regex: Regex): (r: seq<string>)
    ensures |r| <= |names|
    ensures forall n :: n in r <==> n in names && regex(n)
  {
    if names == [] then []
    else (if regex(names[0]) then [names[0]] else []) + Matches(names[1..], regex)
  }

  /** The filter keeps archive order: it distributes over concatenation. */
  lemma {:induction false} MatchesConcat(a: seq<string>, b: seq<string>, regex: Regex)
    ensures Matches(a + b, regex) == Matches(a, regex) + Matches(b, regex)
  {
    if a == [] {
      assert a + b == b;
    } else {
      assert (a + b)[0] == a[0];
      assert (a + b)[1..] == a[1..] + b;
      MatchesConcat(a[1..], b, regex);
    }
  }

  /** `open_file_in_tar` of accsr: the name of the member it opens, or ValueError. */
  function OpenByRegex(names: seq<string>, regex: Regex): (r: Result<string>)
    ensures r.Ok? <==> |Matches(names, regex)| == 1
    ensures r.Err? ==> r.error == ValueError
    ensures r.Ok? ==> r.value in names && regex(r.value)
  {
    var matches := Matches(names, regex);
    if |matches| != 1 then Err(ValueError)
    else
      assert matches[0] in matches;
      Ok(matches[0])
  }

  /** The member at index `i` is the only one the expression matches. */
  predicate OnlyMatchAt(names: seq<string>, regex: Regex, i: int) {
    0 <= i < |names| && regex(names[i]) && forall j :: 0 <= j < |names| && regex(names[j]) ==> j == i
  }

  /** Exactly one filtered name means exactly one matching position in the archive. */
  lemma {:induction false} OneMatchIff(names: seq<string>, regex: Regex)
    ensures |Matches(names, regex)| == 1 <==> exists i :: OnlyMatchAt(names, regex, i)
    ensures |Matches(names, regex)| == 1 ==> forall i :: OnlyMatchAt(names, regex, i) ==> Matches(names, regex) == [names[i]]
  {
    if names != [] {
      var t := names[1..];
      OneMatchIff(t, regex);
      if regex(names[0]) {
        assert Matches(names, regex) == [names[0]] + Matches(t, regex);
        if |Matches(names, regex)| == 1 {
          assert Matches(t, regex) == [];
          forall j | 0 < j < |names|
            ensures !regex(names[j])
          {
            assert names[j] == t[j - 1];
            assert names[j] in t;
          }
          assert OnlyMatchAt(names, regex, 0);
        }
        if Matches(t, regex) != [] {
          var x := Matches(t, regex)[0];
          assert x in Matches(t, regex);
          var j :| 0 <= j < |t| && t[j] == x;
          assert names[j + 1] == x;
          forall i | 0 <= i < |names|
            ensures !OnlyMatchAt(names, regex, i)
          {
            if i == 0 {
              assert regex(names[j + 1]) && j + 1 != i;
            } else {
              assert regex(names[0]) && 0 != i;
            }
          }
        }
      } else {
        assert Matches(names, regex) == Matches(t, regex);
        if i :| OnlyMatchAt(t, regex, i) {
          forall j | 0 <= j < |names| && regex(names[j])
            ensures j == i + 1
          {
            assert j != 0;
            assert t[j - 1] == names[j];
          }
          assert OnlyMatchAt(names, regex, i + 1);
        }
        forall i | OnlyMatchAt(names, regex, i)
          ensures OnlyMatchAt(t, regex, i - 1)
        {
          assert i != 0;
          forall j | 0 <= j < |t| && regex(t[j])
            ensures j == i - 1
          {
            assert names[j + 1] == t[j];
          }
        }
      }
    }
  }

  /**
   * The selection rule: the archive is opened exactly when one member position
   * matches, and then that member is the one opened.
   */
  lemma OpenByRegexUnique(names: seq<string>, regex: Regex)
    ensures OpenByRegex(names, regex).Ok? <==> exists i :: OnlyMatchAt(names, regex, i)
    ensures forall i :: OnlyMatchAt(names, regex, i) ==> OpenByRegex(names, regex) == Ok(names[i])
  {
    OneMatchIff(names, regex);
  }

  /** With the default pattern, only an archive of exactly one member can be opened. */
  lemma {:induction false} DefaultPatternNeedsOneMember(names: seq<string>)
    ensures OpenByRegex(names, MatchAll()).Ok? <==> |names| == 1
    ensures |names| == 1 ==> OpenByRegex(names, MatchAll()) == Ok(names[0])
  {
    MatchAllKeepsAll(names);
  }

  /** The default pattern keeps every name. */
  lemma {:induction false} MatchAllKeepsAll(names: seq<string>)
    ensures Matches(names, MatchAll()) == names
  {
    if names != [] {
      MatchAllKeepsAll(names[1..]);
      assert [names[0]] + names[1..] == names;
    }
  }

  /** The archive of two text files: "sample" matches both, "noresult" neither, "sample_" one. */
  lemma SampleArchiveSelection()
    ensures OpenByRegex(["sample.txt", "sample_2.txt"], Literal("sample")) == Err(ValueError)
    ensures OpenByRegex(["sample.txt", "sample_2.txt"], Literal("noresult")) == Err(ValueError)
    ensures OpenByRegex(["sample.txt", "sample_2.txt"], Literal("sample_")) == Ok("sample_2.txt")
  {
    var names := ["sample.txt", "sample_2.txt"];
    assert names[1..][1..] == [];
    assert "sample.txt"[..6] == "sample";
    assert "sample_2.txt"[..6] == "sample";
    assert "sample.txt"[..7] == "sample.";
    assert "sample_2.txt"[..7] == "sample_";
    assert "sample.txt"[..8] == "sample.t";
    assert "sample_2.txt"[..8] == "sample_2";
    assert Matches(names, Literal("sample")) == names;
    assert Matches(names, Literal("noresult")) == [];
    assert Matches(names, Literal("sample_")) == ["sample_2.txt"];
  }

  // ---------------------------------------------------------------------------
  // open_file_in_tar, src/data_access/loading.py: selection by name or index
  // ---------------------------------------------------------------------------

  /**
   * `open_file_in_tar` of data_access: the name of the member it opens. Exactly
   * one of `file_name` and `file_index` must be given; the index is 1-based and
   * an index past the end fails on the list subscript.
   */
  function OpenByNameOrIndex(names: seq<string>, fileName: Option<string>, fileIndex: Option<int>): (r: Result<string>)
    ensures fileName.Some? == fileIndex.Some? ==> r == Err(ValueError)
    ensures fileIndex.Some? && fileName.None? ==> (r.Ok? <==> 1 <= fileIndex.value <= |names|)
    ensures fileIndex.Some? && fileName.None? && r.Err? ==> r.error == IndexError
    ensures fileIndex.Some? && fileName.None? && r.Ok? ==> r.value == names[fileIndex.value - 1]
    ensures fileName.Some? && fileIndex.None? ==> r == (if fileName.value in names then Ok(fileName.value) else Err(FileNotFoundError))
  {
    if fileName.Some? && fileIndex.Some? then Err(ValueError)
    else if fileName.None? && fileIndex.None? then Err(ValueError)
    else if fileIndex.Some? then
      if fileIndex.value < 1 then Err(IndexError)
      else if fileIndex.value - 1 >= |names| then Err(IndexError)
      else Ok(names[fileIndex.value - 1])
    else if fileName.value !in names then Err(FileNotFoundError)
    else Ok(fileName.value)
  }

  /** A member opened by its index can be opened again by its name. */
  lemma IndexThenName(names: seq<string>, k: int)
    requires OpenByNameOrIndex(names, None, Some(k)).Ok?
    ensures var n := OpenByNameOrIndex(names, None, Some(k)).value;
      OpenByNameOrIndex(names, Some(n), None) == Ok(n)
  {
  }

  /** A member opened by name sits at some 1-based index that opens it too. */
  lemma NameThenIndex(names: seq<string>, n: string)
    requires OpenByNameOrIndex(names, Some(n), None).Ok?
    ensures exists k :: 1 <= k <= |names| && OpenByNameOrIndex(names, None, Some(k)) == Ok(n)
  {
    var i :| 0 <= i < |names| && names[i] == n;
    assert OpenByNameOrIndex(names, None, Some(i + 1)) == Ok(n);
  }

  /**
   * For an archive without repeated names, the expression that matches one name
   * exactly opens what opening by that name opens, and fails where it fails
   * (with ValueError instead of FileNotFoundError).
   */
  lemma {:induction false} RegexAgreesWithName(names: seq<string>, n: string)
    requires forall i, j :: 0 <= i < j < |names| ==> names[i] != names[j]
    ensures OpenByRegex(names, (x: string) => x == n).Ok? <==> OpenByNameOrIndex(names, Some(n), None).Ok?
    ensures OpenByRegex(names, (x: string) => x == n).Ok? ==> OpenByRegex(names, (x: string) => x == n) == Ok(n)
  {
    var regex := (x: string) => x == n;
    OneMatchIff(names, regex);
    if n in names {
      var i :| 0 <= i < |names| && names[i] == n;
      assert OnlyMatchAt(names, regex, i);
    } else {
      forall i | 0 <= i < |names|
        ensures !OnlyMatchAt(names, regex, i)
      {
        assert names[i] != n;
      }
    }
  }
}
