/**
 * The configuration loader of `accsr.config`: JSON-like values, the
 * recursive dictionary merge, `env:` substitution, left-to-right layering of
 * configuration files, hierarchical key lookup and the provider that caches a
 * configuration instance.
 *
 * A Python dict is a sequence of fields in insertion order. Parsed files and
 * merged configurations never repeat a key (`UniqueKeys`); `Get` finds the
 * first field with a key, and `Put` overwrites a key in place or appends it,
 * as assignment to `d[k]` does.
 */
module Configs {
  import opened Wrappers
  import opened PyStrings

  /** A value read from a YAML or JSON file (numbers are integers here). */
  datatype Json =
    | JNull
    | JBool(b: bool)
    | JNum(n: int)
    | JStr(s: string)
    | JList(items: seq<Json>)
    | JObj(fields: seq<Field>)

  datatype Field = Field(key: string, value: Json)

  type Dict = seq<Field>

  function Keys(d: Dict): set<string> {
    if d == [] then {} else {d[0].key} + Keys(d[1..])
  }

  /** No key occurs twice, as in every Python dict. */
  predicate UniqueKeys(d: Dict) {
    d == [] || (d[0].key !in Keys(d[1..]) && UniqueKeys(d[1..]))
  }

  /** Every dict nested anywhere in `j` has unique keys: what a parser produces. */
  predicate WellFormed(j: Json) {
    match j
    case JObj(fs) => UniqueKeys(fs) && forall i :: 0 <= i < |fs| ==> WellFormed(fs[i].value)
    case JList(xs) => forall i :: 0 <= i < |xs| ==> WellFormed(xs[i])
    case _ => true
  }

  lemma {:induction false} KeysConcat(a: Dict, b: Dict)
    ensures Keys(a + b) == Keys(a) + Keys(b)
  {
    if a != [] {
      assert (a + b)[0] == a[0] && (a + b)[1..] == a[1..] + b;
      KeysConcat(a[1..], b);
      assert Keys(a + b) == {a[0].key} + Keys(a[1..] + b);
    } else {
      assert a + b == b;
    }
  }

  /** `d.get(k)`: the value stored under `k`, or `None`. */
  function Get(d: Dict, k: string): (r: Option<Json>)
    ensures r.Some? <==> k in Keys(d)
  {
    if d == [] then None else if d[0].key == k then Some(d[0].value) else Get(d[1..], k)
  }

  /** `d[k] = v`: an existing key keeps its position, a new key goes to the end. */
  function Put(d: Dict, k: string, v: Json): (r: Dict)
    ensures Get(r, k) == Some(v)
    ensures forall k' :: k' != k ==> Get(r, k') == Get(d, k')
    ensures Keys(r) == Keys(d) + {k}
    ensures UniqueKeys(d) ==> UniqueKeys(r)
    ensures k !in Keys(d) ==> r == d + [Field(k, v)]
  {
    if d == [] then [Field(k, v)]
    else if d[0].key == k then [Field(k, v)] + d[1..]
    else [d[0]] + Put(d[1..], k, v)
  }

  // ---------------------------------------------------------------------------
  // recursive_dict_update
  // ---------------------------------------------------------------------------

  /**
   * What `d[k]` becomes when `u[k] == v`, given the value `prior` of `d.get(k)`.
   * A dict value is merged into `d.get(k, {})`; when that is not a dict, the
   * merge fails on the first item of `v`: `.get` on it raises AttributeError
   * when the item is a dict, item assignment raises TypeError otherwise, and an
   * empty `v` leaves the non-dict untouched.
   */
  function MergeValue(prior: Option<Json>, v: Json): Result<Json>
    decreases v, 1
  {
    match v
    case JObj(uf) =>
      var sub := if prior.Some? then prior.value else JObj([]);
      if sub.JObj? then
        match Merge(sub.fields, uf)
        case Err(e) => Err(e)
        case Ok(m) => Ok(JObj(m))
      else if uf == [] then Ok(sub)
      else if uf[0].value.JObj? then Err(AttributeError)
      else Err(TypeError)
    case _ => Ok(v)
  }

  /** `recursive_dict_update(d, u)`: the items of `u` merged into `d`, in order. */
  function Merge(d: Dict, u: Dict): Result<Dict>
    decreases u, 0
  {
    if u == [] then Ok(d)
    else
      match MergeValue(Get(d, u[0].key), u[0].value)
      case Err(e) => Err(e)
      case Ok(v) => Merge(Put(d, u[0].key, v), u[1..])
  }

  /** One item of the merge: the first item of `w` is settled, the rest follows. */
  lemma MergeStep(cur: Dict, w: Dict)
    requires w != []
    ensures var mv := MergeValue(Get(cur, w[0].key), w[0].value);
      Merge(cur, w) == if mv.Err? then Err(mv.error) else Merge(Put(cur, w[0].key, mv.value), w[1..])
  {
  }

  /** The in-place merge loop; the dict is passed and returned by value. */
  method RecursiveDictUpdate(d: Dict, u: Dict) returns (r: Result<Dict>)
    ensures r == Merge(d, u)
    decreases u
  {
    var cur := d;
    var i := 0;
    while i < |u|
      invariant 0 <= i <= |u|
      invariant Merge(d, u) == Merge(cur, u[i..])
    {
      assert u[i..][0] == u[i] && u[i..][1..] == u[i + 1..];
      MergeStep(cur, u[i..]);
      var k, v := u[i].key, u[i].value;
      var nv := v;
      if v.JObj? {
        var prior := Get(cur, k);
        var sub := if prior.Some? then prior.value else JObj([]);
        if sub.JObj? {
          var m := RecursiveDictUpdate(sub.fields, v.fields);
          if m.Err? {
            return Err(m.error);
          }
          nv := JObj(m.value);
        } else if v.fields == [] {
          nv := sub;
        } else if v.fields[0].value.JObj? {
          return Err(AttributeError);
        } else {
          return Err(TypeError);
        }
      }
      assert MergeValue(Get(cur, k), v) == Ok(nv);
      cur := Put(cur, k, nv);
      i := i + 1;
    }
    assert u[i..] == [];
    return Ok(cur);
  }

  /** A merge keeps the keys of `d`, adds those of `u`, and never repeats one. */
  lemma {:induction false} MergeKeys(d: Dict, u: Dict)
    requires Merge(d, u).Ok?
    ensures Keys(Merge(d, u).value) == Keys(d) + Keys(u)
    ensures UniqueKeys(d) ==> UniqueKeys(Merge(d, u).value)
    decreases u
  {
    if u != [] {
      var v := MergeValue(Get(d, u[0].key), u[0].value).value;
      MergeKeys(Put(d, u[0].key, v), u[1..]);
    }
  }

  /** Keys that `u` does not mention keep their value. */
  lemma {:induction false} MergeKeepsOthers(d: Dict, u: Dict, k: string)
    requires Merge(d, u).Ok?
    requires k !in Keys(u)
    ensures Get(Merge(d, u).value, k) == Get(d, k)
    decreases u
  {
    if u != [] {
      var v := MergeValue(Get(d, u[0].key), u[0].value).value;
      MergeKeepsOthers(Put(d, u[0].key, v), u[1..], k);
    }
  }

  /**
   * A key of `u` ends up holding its merged value: a non-dict overwrites
   * whatever `d` held, a dict is merged recursively into `d`'s value.
   */
  lemma {:induction false} MergeAt(d: Dict, u: Dict, k: string)
    requires Merge(d, u).Ok?
    requires UniqueKeys(u) && k in Keys(u)
    ensures MergeValue(Get(d, k), Get(u, k).value).Ok?
    ensures Get(Merge(d, u).value, k) == Some(MergeValue(Get(d, k), Get(u, k).value).value)
    decreases u
  {
    var v := MergeValue(Get(d, u[0].key), u[0].value).value;
    if u[0].key == k {
      MergeKeepsOthers(Put(d, k, v), u[1..], k);
    } else {
      MergeAt(Put(d, u[0].key, v), u[1..], k);
    }
  }

  /** Non-dict values of `u` overwrite `d`. */
  lemma MergeOverwrites(d: Dict, u: Dict, k: string, v: Json)
    requires Merge(d, u).Ok?
    requires UniqueKeys(u) && Get(u, k) == Some(v) && !v.JObj?
    ensures Get(Merge(d, u).value, k) == Some(v)
  {
    MergeAt(d, u, k);
  }

  /** Dict values of `u` are merged into dict values of `d`. */
  lemma MergeNested(d: Dict, u: Dict, k: string, df: Dict, uf: Dict)
    requires Merge(d, u).Ok?
    requires UniqueKeys(u) && Get(u, k) == Some(JObj(uf)) && Get(d, k) == Some(JObj(df))
    ensures Merge(df, uf).Ok?
    ensures Get(Merge(d, u).value, k) == Some(JObj(Merge(df, uf).value))
  {
    MergeAt(d, u, k);
  }

  lemma WellFormedTail(u: Dict)
    requires u != [] && WellFormed(JObj(u))
    ensures WellFormed(u[0].value) && WellFormed(JObj(u[1..]))
  {
    forall i | 0 <= i < |u[1..]| ensures WellFormed(u[1..][i].value) {
      assert u[1..][i] == u[i + 1];
    }
  }

  lemma KeysShift(p: Dict, u: Dict)
    requires u != [] && UniqueKeys(u) && Keys(p) !! Keys(u)
    ensures u[0].key !in Keys(p) && Keys(p + [u[0]]) !! Keys(u[1..])
  {
    KeysConcat(p, [u[0]]);
    assert Keys([u[0]]) == {u[0].key};
  }

  lemma AppendHeadTail(p: Dict, u: Dict)
    requires u != []
    ensures p + [u[0]] + u[1..] == p + u
  {
  }

  /** The first item of `u` under a key `p` lacks, stored as it is, is appended to `p`. */
  lemma MergeFreshKey(p: Dict, u: Dict)
    requires u != [] && u[0].key !in Keys(p)
    requires MergeValue(None, u[0].value) == Ok(u[0].value)
    ensures Merge(p, u) == Merge(p + [u[0]], u[1..])
  {
    MergeStep(p, u);
  }

  /** A well-formed value merged under a key that is not there yet is stored unchanged. */
  lemma {:induction false} MergeValueFresh(v: Json)
    requires WellFormed(v)
    ensures MergeValue(None, v) == Ok(v)
    decreases v, 1
  {
    if v.JObj? {
      MergeDisjoint([], v.fields);
      assert [] + v.fields == v.fields;
    }
  }

  /** Merging a well-formed dict into one with none of its keys appends it unchanged. */
  lemma {:induction false} MergeDisjoint(p: Dict, u: Dict)
    requires WellFormed(JObj(u))
    requires Keys(p) !! Keys(u)
    ensures Merge(p, u) == Ok(p + u)
    decreases u, 0
  {
    if u != [] {
      WellFormedTail(u);
      MergeValueFresh(u[0].value);
      KeysShift(p, u);
      MergeFreshKey(p, u);
      MergeDisjoint(p + [u[0]], u[1..]);
      AppendHeadTail(p, u);
    } else {
      assert p + u == p;
    }
  }

  // ---------------------------------------------------------------------------
  // env: substitution
  // ---------------------------------------------------------------------------

  /** The environment of the process: variable name to value. */
  type Env = map<string, string>

  const EnvVarMarker: string := "env:"

  /** The characters `lstrip(EnvVarMarker)` removes: a set, not a prefix. */
  const MarkerChars: set<char> := {'e', 'n', 'v', ':'}

  /** `os.getenv(name)`: the value, or `None` when the variable is unset. */
  function Getenv(env: Env, name: string): (r: Json)
    ensures r.JNull? <==> name !in env
    ensures name in env ==> r == JStr(env[name])
  {
    if name in env then JStr(env[name]) else JNull
  }

  /** The variable name as the source computes it, `v.lstrip("env:")`. */
  function EnvVarNameAsWritten(v: string): (r: string)
    ensures r == [] || r[0] !in MarkerChars
  {
    LStrip(v, MarkerChars)
  }

  /** The variable name meant by a marked string: what follows the marker. */
  function EnvVarName(v: string): (r: string)
    requires StartsWith(v, EnvVarMarker)
    ensures EnvVarMarker + r == v
  {
    v[|EnvVarMarker|..]
  }

  /** The marker and the name read back from it form a round trip. */
  lemma EnvVarNameRoundTrip(name: string)
    ensures StartsWith(EnvVarMarker + name, EnvVarMarker)
    ensures EnvVarName(EnvVarMarker + name) == name
  {
    assert (EnvVarMarker + name)[..|EnvVarMarker|] == EnvVarMarker;
  }

  /** Both readings agree exactly when the name does not begin with one of the marker's characters. */
  lemma EnvVarNameAgreement(name: string)
    ensures EnvVarNameAsWritten(EnvVarMarker + name) == name <==> name == [] || name[0] !in MarkerChars
  {
    var s := EnvVarMarker + name;
    assert s[..4] == EnvVarMarker && s[4..] == name;
    LStripDrops(s, MarkerChars, 4);
    if name != [] && name[0] in MarkerChars {
      assert LStrip(name, MarkerChars) == LStrip(name[1..], MarkerChars);
    }
  }

  /** "env:vendor" names the variable "vendor", but the source looks up "dor". */
  lemma EnvVarNameStripsTooMuch()
    ensures EnvVarNameAsWritten("env:vendor") == "dor"
    ensures EnvVarName("env:vendor") == "vendor"
  {
    var s := "env:vendor";
    assert s[7..] == "dor" && s[..4] == EnvVarMarker;
    MarkerRunRead(s, 7, "dor");
  }

  /** A string whose first `n` characters are marker characters is read as what follows them. */
  lemma MarkerRunRead(s: string, n: nat, rest: string)
    requires n <= |s| && (forall i :: 0 <= i < n ==> s[i] in MarkerChars) && s[n..] == rest
    requires rest != [] && rest[0] !in MarkerChars
    ensures EnvVarNameAsWritten(s) == rest
  {
    LStripDrops(s, MarkerChars, n);
    LStripStopsAt(rest, MarkerChars);
  }

  /**
   * A string entry: a marked string is replaced by the environment variable the
   * source's `lstrip` names (see `SubstituteMarked`).
   */
  function SubstituteString(s: string, env: Env): (r: Json)
    ensures !StartsWith(s, EnvVarMarker) ==> r == JStr(s)
    ensures StartsWith(s, EnvVarMarker) ==> r == Getenv(env, EnvVarNameAsWritten(s))
  {
    if StartsWith(s, EnvVarMarker) then Getenv(env, EnvVarNameAsWritten(s)) else JStr(s)
  }

  /**
   * A marked name is looked up with its leading marker characters removed, so
   * it is the name after the marker exactly when that does not begin with one.
   */
  lemma SubstituteMarked(name: string, env: Env)
    ensures SubstituteString(EnvVarMarker + name, env) == Getenv(env, LStrip(name, MarkerChars))
    ensures name == [] || name[0] !in MarkerChars ==> SubstituteString(EnvVarMarker + name, env) == Getenv(env, name)
  {
    var s := EnvVarMarker + name;
    assert s[..4] == EnvVarMarker && s[4..] == name;
    LStripDrops(s, MarkerChars, 4);
    EnvVarNameAgreement(name);
  }

  /** The entry "env:vendor" is replaced by the variable "dor", not by "vendor". */
  lemma SubstituteStripsTooMuch(env: Env)
    ensures SubstituteString("env:vendor", env) == Getenv(env, "dor")
  {
    EnvVarNameStripsTooMuch();
    assert "env:vendor"[..4] == EnvVarMarker;
  }

  /** A value of a dict under `_replace_env_vars`: strings substituted, dicts recursed into, the rest kept. */
  function ReplacedValue(v: Json, env: Env): Json
    decreases v, 1
  {
    match v
    case JStr(s) => SubstituteString(s, env)
    case JObj(fs) => JObj(ReplaceEnvVars(fs, env))
    case _ => v
  }

  /** `_replace_env_vars(conf)`: every value replaced in place, keys and order kept. */
  function ReplaceEnvVars(conf: Dict, env: Env): (r: Dict)
    ensures |r| == |conf|
    ensures forall i :: 0 <= i < |r| ==> r[i] == Field(conf[i].key, ReplacedValue(conf[i].value, env))
    decreases conf, 0
  {
    if conf == [] then []
    else [Field(conf[0].key, ReplacedValue(conf[0].value, env))] + ReplaceEnvVars(conf[1..], env)
  }

  /** The loop of `_replace_env_vars`, writing each item back into the dict. */
  method ReplaceEnvVarsInPlace(conf: Dict, env: Env) returns (r: Dict)
    ensures r == ReplaceEnvVars(conf, env)
    decreases conf
  {
    r := conf;
    var i := 0;
    while i < |r|
      invariant 0 <= i <= |r| == |conf|
      invariant forall j :: 0 <= j < i ==> r[j] == Field(conf[j].key, ReplacedValue(conf[j].value, env))
      invariant forall j :: i <= j < |r| ==> r[j] == conf[j]
    {
      var k, v := r[i].key, r[i].value;
      ghost var replaced := ReplacedValue(v, env);
      if v.JStr? && StartsWith(v.s, EnvVarMarker) {
        r := r[i := Field(k, SubstituteString(v.s, env))];
      } else if v.JObj? {
        var sub := ReplaceEnvVarsInPlace(v.fields, env);
        r := r[i := Field(k, JObj(sub))];
      } else {
        assert replaced == v;
      }
      assert r[i] == Field(conf[i].key, replaced);
      i := i + 1;
    }
  }

  /** `_get_entry_with_replaced_env_vars`: like a dict value, except that lists are substituted element-wise. */
  function SubstituteEntry(entry: Json, env: Env): Json {
    match entry
    case JList(xs) => JList(seq(|xs|, i requires 0 <= i < |xs| => SubstituteEntry(xs[i], env)))
    case _ => ReplacedValue(entry, env)
  }

  /** No string anywhere in `j` carries the marker. */
  predicate MarkerFree(j: Json) {
    match j
    case JStr(s) => !StartsWith(s, EnvVarMarker)
    case JObj(fs) => forall i :: 0 <= i < |fs| ==> MarkerFree(fs[i].value)
    case JList(xs) => forall i :: 0 <= i < |xs| ==> MarkerFree(xs[i])
    case _ => true
  }

  lemma {:induction false} ReplacedValueMarkerFree(j: Json, env: Env)
    requires MarkerFree(j)
    ensures ReplacedValue(j, env) == j
    decreases j
  {
    if j.JObj? {
      var fs := j.fields;
      forall i | 0 <= i < |fs| ensures ReplacedValue(fs[i].value, env) == fs[i].value {
        ReplacedValueMarkerFree(fs[i].value, env);
      }
      assert ReplaceEnvVars(fs, env) == fs;
    }
  }

  /** Substitution changes nothing in a value that mentions no environment variable. */
  lemma {:induction false} SubstituteMarkerFree(j: Json, env: Env)
    requires MarkerFree(j)
    ensures SubstituteEntry(j, env) == j
    decreases j
  {
    if j.JList? {
      var xs := j.items;
      forall i | 0 <= i < |xs| ensures SubstituteEntry(xs[i], env) == xs[i] {
        SubstituteMarkerFree(xs[i], env);
      }
      assert SubstituteEntry(j, env).items == xs;
    } else {
      ReplacedValueMarkerFree(j, env);
    }
  }

  /**
   * A marked string inside a list is substituted (by the variable the source's
   * `lstrip` names) when the list is the entry, but left as it is when the list
   * sits inside a dict.
   */
  lemma SubstituteListsOnlyAtTop(env: Env, name: string)
    ensures var marked := JStr(EnvVarMarker + name);
      SubstituteEntry(JList([marked]), env) == JList([Getenv(env, LStrip(name, MarkerChars))]) &&
      SubstituteEntry(JObj([Field("k", JList([marked]))]), env) == JObj([Field("k", JList([marked]))])
  {
    var m := JStr(EnvVarMarker + name);
    SubstituteMarked(name, env);
    ListEntrySubstituted(m, env, Getenv(env, LStrip(name, MarkerChars)));
    NestedListKept(m, env);
  }

  /** A one-element list entry is substituted element-wise. */
  lemma ListEntrySubstituted(x: Json, env: Env, value: Json)
    requires x.JStr? && ReplacedValue(x, env) == value
    ensures SubstituteEntry(JList([x]), env) == JList([value])
  {
    assert SubstituteEntry(x, env) == value;
    assert SubstituteEntry(JList([x]), env).items == [value];
  }

  /** A list inside a dict entry is kept as it is. */
  lemma NestedListKept(x: Json, env: Env)
    ensures SubstituteEntry(JObj([Field("k", JList([x]))]), env) == JObj([Field("k", JList([x]))])
  {
    var inner := [Field("k", JList([x]))];
    assert ReplacedValue(JList([x]), env) == JList([x]);
    assert inner[1..] == [];
    assert ReplaceEnvVars(inner, env) == inner;
  }

  // ---------------------------------------------------------------------------
  // get_config_reader and the layering of configuration files
  // ---------------------------------------------------------------------------

  /** The parser chosen for a configuration file. */
  datatype Reader = YamlReader | JsonReader

  /** `get_config_reader`: the parser is chosen by the file extension alone. */
  function ConfigReader(filename: string): (r: Result<Reader>)
    ensures r == Ok(YamlReader) <==> EndsWith(filename, ".yaml") || EndsWith(filename, ".yml")
    ensures r == Ok(JsonReader) <==> !EndsWith(filename, ".yaml") && !EndsWith(filename, ".yml") && EndsWith(filename, ".json")
    ensures r.Err? <==> !EndsWith(filename, ".yaml") && !EndsWith(filename, ".yml") && !EndsWith(filename, ".json")
    ensures r.Err? ==> r.error == ValueError
  {
    if EndsWith(filename, ".yaml") || EndsWith(filename, ".yml") then Ok(YamlReader)
    else if EndsWith(filename, ".json") then Ok(JsonReader)
    else Err(ValueError)
  }

  /** The parsed content of every configuration file that exists, by path. */
  type Disk = map<string, Json>

  /**
   * One pass of the layering loop: the reader is chosen before the file is
   * looked for, so an unsupported name fails even when the file is missing;
   * a missing file is skipped; a file whose content is not a dict fails on
   * `.items()`.
   */
  function AddLayer(config: Dict, dir: string, name: string, disk: Disk): Result<Dict> {
    var reader := ConfigReader(name);
    var path := PathJoin(dir, name);
    if reader.Err? then Err(reader.error)
    else if path !in disk then Ok(config)
    else if !disk[path].JObj? then Err(AttributeError)
    else Merge(config, disk[path].fields)
  }

  /** The configuration merged from `files`, left to right, before the emptiness test. */
  function Layer(dir: string, files: seq<string>, disk: Disk): Result<Dict>
    decreases |files|
  {
    if files == [] then Ok([])
    else
      var prev := Layer(dir, files[..|files| - 1], disk);
      if prev.Err? then prev else AddLayer(prev.value, dir, files[|files| - 1], disk)
  }

  /** What `ConfigurationBase.__init__` leaves in `self.config`, or the error it raises. */
  function LoadConfig(dir: string, files: seq<string>, disk: Disk): (r: Result<Dict>)
    ensures r.Ok? ==> r.value != []
  {
    var c := Layer(dir, files, disk);
    if c.Err? then c else if c.value == [] then Err(FileNotFoundError) else c
  }

  lemma LayerStep(dir: string, files: seq<string>, disk: Disk, i: nat)
    requires i < |files|
    ensures var prev := Layer(dir, files[..i], disk);
      Layer(dir, files[..i + 1], disk) == if prev.Err? then prev else AddLayer(prev.value, dir, files[i], disk)
  {
    assert files[..i + 1][..i] == files[..i];
  }

  /** One more file read: the layering grows by it, and a failure is the result of the whole loop. */
  lemma LayerAdvance(dir: string, files: seq<string>, disk: Disk, i: nat, config: Dict, next: Result<Dict>)
    requires i < |files| && Layer(dir, files[..i], disk) == Ok(config)
    requires next == AddLayer(config, dir, files[i], disk)
    ensures Layer(dir, files[..i + 1], disk) == next
    ensures next.Err? ==> Layer(dir, files, disk) == next
  {
    LayerStep(dir, files, disk, i);
    if next.Err? {
      LayerStops(dir, files, disk, i + 1);
    }
  }

  /** Once a file fails, the files after it are never read. */
  lemma {:induction false} LayerStops(dir: string, files: seq<string>, disk: Disk, k: nat)
    requires k <= |files| && Layer(dir, files[..k], disk).Err?
    ensures Layer(dir, files, disk) == Layer(dir, files[..k], disk)
    decreases |files| - k
  {
    if k < |files| {
      LayerStep(dir, files, disk, k);
      LayerStops(dir, files, disk, k + 1);
    } else {
      assert files[..k] == files;
    }
  }

  /** A non-dict entry of the last file read overrides every earlier file. */
  lemma LaterFileWins(dir: string, files: seq<string>, disk: Disk, k: string, v: Json)
    requires files != [] && LoadConfig(dir, files, disk).Ok?
    requires var path := PathJoin(dir, files[|files| - 1]);
      path in disk && disk[path].JObj? && UniqueKeys(disk[path].fields) && Get(disk[path].fields, k) == Some(v)
    requires !v.JObj?
    ensures Get(LoadConfig(dir, files, disk).value, k) == Some(v)
  {
    var path := PathJoin(dir, files[|files| - 1]);
    var prev := Layer(dir, files[..|files| - 1], disk);
    MergeOverwrites(prev.value, disk[path].fields, k, v);
  }

  /** An unsupported file name fails the whole load, whether or not the file exists. */
  lemma UnsupportedNameFails(dir: string, files: seq<string>, disk: Disk, i: nat)
    requires i < |files| && ConfigReader(files[i]).Err?
    requires Layer(dir, files[..i], disk).Ok?
    ensures LoadConfig(dir, files, disk) == Err(ValueError)
  {
    LayerStep(dir, files, disk, i);
    LayerStops(dir, files, disk, i + 1);
  }

  /** When none of the files exists, loading fails with FileNotFoundError. */
  lemma {:induction false} NoFileFound(dir: string, files: seq<string>, disk: Disk)
    requires forall i :: 0 <= i < |files| ==> ConfigReader(files[i]).Ok? && PathJoin(dir, files[i]) !in disk
    ensures Layer(dir, files, disk) == Ok([])
    ensures LoadConfig(dir, files, disk) == Err(FileNotFoundError)
    decreases |files|
  {
    if files != [] {
      NoFileFound(dir, files[..|files| - 1], disk);
    }
  }

  /** A single existing file yields exactly its content. */
  lemma SingleFile(dir: string, name: string, disk: Disk)
    requires ConfigReader(name).Ok?
    requires var path := PathJoin(dir, name); path in disk && disk[path].JObj? && WellFormed(disk[path])
    requires disk[PathJoin(dir, name)].fields != []
    ensures LoadConfig(dir, [name], disk) == Ok(disk[PathJoin(dir, name)].fields)
  {
    var fs := disk[PathJoin(dir, name)].fields;
    MergeDisjoint([], fs);
    assert [] + fs == fs;
    assert [name][..0] == [];
    assert Layer(dir, [name], disk) == AddLayer([], dir, name, disk);
  }

  // ---------------------------------------------------------------------------
  // Hierarchical lookup
  // ---------------------------------------------------------------------------

  /** The key argument of `_get_non_empty_entry`: one key, or a list of keys. */
  datatype Key = Single(name: string) | Path(names: seq<string>)

  /** A single key is treated as a one-element list. */
  function KeyPath(key: Key): (r: seq<string>)
    ensures key.Single? ==> r == [key.name]
    ensures key.Path? ==> r == key.names
  {
    match key
    case Single(n) => [n]
    case Path(ns) => ns
  }

  /**
   * The value found by walking `path` from `value`: a missing key or a null
   * value raises KeyError, a step into something that is not a dict raises
   * AttributeError (it has no `.get`).
   */
  function Lookup(value: Json, path: seq<string>): (r: Result<Json>)
    ensures r.Ok? && path != [] ==> !r.value.JNull?
    ensures r.Err? ==> r.error == KeyError || r.error == AttributeError
    decreases |path|
  {
    if path == [] then Ok(value)
    else if !value.JObj? then Err(AttributeError)
    else
      var next := Get(value.fields, path[0]);
      if next.None? || next.value.JNull? then Err(KeyError) else Lookup(next.value, path[1..])
  }

  /** Walking `p + q` is walking `p`, then `q` from where `p` ends. */
  lemma {:induction false} LookupConcat(value: Json, p: seq<string>, q: seq<string>)
    ensures var m := Lookup(value, p);
      Lookup(value, p + q) == if m.Err? then m else Lookup(m.value, q)
    decreases |p|
  {
    if p == [] {
      assert p + q == q;
    } else {
      assert (p + q)[0] == p[0] && (p + q)[1..] == p[1..] + q;
      if value.JObj? {
        var next := Get(value.fields, p[0]);
        if next.Some? && !next.value.JNull? {
          LookupConcat(next.value, p[1..], q);
        }
      }
    }
  }

  /** One step of the walk succeeds exactly on a present, non-null key. */
  lemma LookupOneKey(d: Dict, k: string)
    ensures Lookup(JObj(d), [k]).Ok? <==> Get(d, k).Some? && !Get(d, k).value.JNull?
    ensures Lookup(JObj(d), [k]).Ok? ==> Lookup(JObj(d), [k]).value == Get(d, k).value
  {
    assert [k][1..] == [];
  }

  // ---------------------------------------------------------------------------
  // ConfigurationBase
  // ---------------------------------------------------------------------------

  /** One pass of the loop of `ConfigurationBase.__init__`. */
  method ReadLayer(config: Dict, dir: string, name: string, disk: Disk) returns (r: Result<Dict>)
    ensures r == AddLayer(config, dir, name, disk)
  {
    var path := PathJoin(dir, name);
    var reader := ConfigReader(name);
    if reader.Err? {
      return Err(reader.error);
    }
    if path !in disk {
      return Ok(config);
    }
    var content := disk[path];
    if !content.JObj? {
      return Err(AttributeError);
    }
    r := RecursiveDictUpdate(config, content.fields);
  }

  /** The loop of `ConfigurationBase.__init__` over the configuration files. */
  method LayerFiles(dir: string, files: seq<string>, disk: Disk) returns (r: Result<Dict>)
    ensures r == Layer(dir, files, disk)
  {
    var config: Dict := [];
    var i := 0;
    while i < |files|
      invariant 0 <= i <= |files|
      invariant Layer(dir, files[..i], disk) == Ok(config)
    {
      var next := ReadLayer(config, dir, files[i], disk);
      LayerAdvance(dir, files, disk, i, config, next);
      if next.Err? {
        return next;
      }
      config := next.value;
      i := i + 1;
    }
    assert files[..i] == files;
    return Ok(config);
  }

  class Configuration {
    var configDirectory: string
    var config: Dict

    constructor(dir: string, config: Dict)
      ensures configDirectory == dir && this.config == config
    {
      configDirectory := dir;
      this.config := config;
    }

    /** `ConfigurationBase.__init__` with an explicit directory. */
    static method Load(dir: string, files: seq<string>, disk: Disk) returns (r: Result<Configuration>)
      ensures r.Ok? <==> LoadConfig(dir, files, disk).Ok?
      ensures r.Err? ==> r.error == LoadConfig(dir, files, disk).error
      ensures r.Ok? ==> fresh(r.value) && r.value.configDirectory == dir && r.value.config == LoadConfig(dir, files, disk).value
    {
      var layered := LayerFiles(dir, files, disk);
      if layered.Err? {
        return Err(layered.error);
      }
      if layered.value == [] {
        return Err(FileNotFoundError);
      }
      var c := new Configuration(dir, layered.value);
      return Ok(c);
    }

    /**
     * `_get_non_empty_entry`: the walk along the keys, then substitution on a
     * copy; `config` itself is never changed.
     */
    method GetNonEmptyEntry(key: Key, env: Env) returns (r: Result<Json>)
      ensures var found := Lookup(JObj(config), KeyPath(key));
        r == if found.Err? then Err(found.error) else Ok(SubstituteEntry(found.value, env))
    {
      var path := KeyPath(key);
      var value := JObj(config);
      var i := 0;
      while i < |path|
        invariant 0 <= i <= |path|
        invariant Lookup(JObj(config), path) == Lookup(value, path[i..])
      {
        assert path[i..][0] == path[i] && path[i..][1..] == path[i + 1..];
        if !value.JObj? {
          return Err(AttributeError);
        }
        var next := Get(value.fields, path[i]);
        if next.None? || next.value.JNull? {
          return Err(KeyError);
        }
        value := next.value;
        i := i + 1;
      }
      assert path[i..] == [];
      return Ok(SubstituteEntry(value, env));
    }
  }

  /**
   * A key whose value is a marked string naming an unset variable: the walk
   * finds the string, which is not None, and the substitution then returns the
   * None of `os.getenv` without raising.
   */
  lemma UnsetVariableGivesNull(d: Dict, k: string, name: string, env: Env)
    requires Get(d, k) == Some(JStr(EnvVarMarker + name))
    requires LStrip(name, MarkerChars) !in env
    ensures var found := Lookup(JObj(d), KeyPath(Single(k)));
      found.Ok? && SubstituteEntry(found.value, env) == JNull
  {
    LookupOneKey(d, k);
    SubstituteMarked(name, env);
  }

  /**
   * `_get_non_empty_entry` of "empty_env_var_entry" set to "env:THIS_EXISTS_NOT"
   * with that variable unset: the entry comes back as None, not as KeyError.
   */
  method UnsetVariableScenario() returns (r: Result<Json>)
    ensures r == Ok(JNull)
  {
    var name := "THIS_EXISTS_NOT";
    var c := new Configuration("project", [Field("empty_env_var_entry", JStr(EnvVarMarker + name))]);
    assert name[0] == 'T';
    UnsetVariableGivesNull(c.config, "empty_env_var_entry", name, map[]);
    r := c.GetNonEmptyEntry(Single("empty_env_var_entry"), map[]);
  }

  /**
   * `_get_non_empty_entry` as its name promises: an entry that is None after
   * the substitution raises KeyError like a None met during the walk.
   */
  function NonEmptyEntry(config: Dict, key: Key, env: Env): (r: Result<Json>)
    ensures r.Ok? ==> !r.value.JNull?
    ensures r.Err? ==> r.error == KeyError || r.error == AttributeError
  {
    var found := Lookup(JObj(config), KeyPath(key));
    if found.Err? then Err(found.error)
    else if SubstituteEntry(found.value, env).JNull? then Err(KeyError)
    else Ok(SubstituteEntry(found.value, env))
  }

  /** The corrected lookup refuses the unset variable the source returns as None. */
  lemma NonEmptyEntryRefusesUnset(d: Dict, k: string, name: string, env: Env)
    requires Get(d, k) == Some(JStr(EnvVarMarker + name))
    requires LStrip(name, MarkerChars) !in env
    ensures NonEmptyEntry(d, Single(k), env) == Err(KeyError)
  {
    UnsetVariableGivesNull(d, k, name, env);
  }

  /** Wherever the source returns an entry that is not None, the corrected lookup returns the same. */
  lemma NonEmptyEntryAgrees(config: Dict, key: Key, env: Env)
    ensures var found := Lookup(JObj(config), KeyPath(key));
      var asWritten := if found.Err? then Err(found.error) else Ok(SubstituteEntry(found.value, env));
      && (asWritten.Ok? && !asWritten.value.JNull? ==> NonEmptyEntry(config, key, env) == asWritten)
      && (asWritten.Err? ==> NonEmptyEntry(config, key, env) == asWritten)
      && (asWritten == Ok(JNull) ==> NonEmptyEntry(config, key, env) == Err(KeyError))
  {
  }

  // ---------------------------------------------------------------------------
  // ConfigProviderBase
  // ---------------------------------------------------------------------------

  /** The arguments a configuration is built from. */
  datatype ConfigArgs = ConfigArgs(directory: string, files: seq<string>)

  /** The configuration singleton: a cached instance and the arguments stored with it. */
  class ConfigProvider {
    var instance: Option<Configuration>
    var configArgs: Option<ConfigArgs>
    /** The arguments the cached instance was actually built from. */
    ghost var builtFrom: Option<ConfigArgs>

    /** The stored arguments are those of the cached instance. */
    ghost predicate Valid()
      reads this
    {
      (instance.Some? <==> builtFrom.Some?) && (instance.Some? ==> configArgs == builtFrom)
    }

    constructor()
      ensures instance == None && configArgs == None && builtFrom == None
      ensures Valid()
    {
      instance := None;
      configArgs := None;
      builtFrom := None;
    }

    /** `_should_update_config_instance`. */
    predicate ShouldUpdate(reload: bool, args: ConfigArgs)
      reads this
    {
      instance.None? || reload || configArgs != Some(args)
    }

    /**
     * `get_config` as written: the arguments are stored before the
     * constructor runs, so a failing construction leaves the old instance
     * cached under the new arguments.
     */
    method GetConfigAsWritten(reload: bool, args: ConfigArgs, disk: Disk) returns (r: Result<Configuration>)
      modifies this
      ensures old(ShouldUpdate(reload, args)) ==>
        var loaded := LoadConfig(args.directory, args.files, disk);
        configArgs == Some(args) &&
        (loaded.Err? ==> r == Err(loaded.error) && instance == old(instance) && builtFrom == old(builtFrom)) &&
        (loaded.Ok? ==> (r.Ok? && fresh(r.value) && r.value.config == loaded.value &&
          r.value.configDirectory == args.directory && instance == Some(r.value) && builtFrom == Some(args)))
      ensures !old(ShouldUpdate(reload, args)) ==>
        r == Ok(old(instance).value) && instance == old(instance) && configArgs == old(configArgs) && builtFrom == old(builtFrom)
    {
      if ShouldUpdate(reload, args) {
        configArgs := Some(args);
        var c := Configuration.Load(args.directory, args.files, disk);
        if c.Err? {
          return Err(c.error);
        }
        instance := Some(c.value);
        builtFrom := Some(args);
      }
      return Ok(instance.value);
    }

    /**
     * `get_config` with the arguments stored only once the instance is
     * built: the instance returned is always one built from `args` (and
     * freshly built when `reload` is set).
     */
    method GetConfig(reload: bool, args: ConfigArgs, disk: Disk) returns (r: Result<Configuration>)
      requires Valid()
      modifies this
      ensures Valid()
      ensures r.Ok? ==> builtFrom == Some(args) && instance == Some(r.value)
      ensures old(ShouldUpdate(reload, args)) ==>
        var loaded := LoadConfig(args.directory, args.files, disk);
        (loaded.Err? ==> r == Err(loaded.error) && unchanged(this)) &&
        (loaded.Ok? ==> (r.Ok? && fresh(r.value) && r.value.config == loaded.value &&
          r.value.configDirectory == args.directory && configArgs == Some(args)))
      ensures !old(ShouldUpdate(reload, args)) ==> r == Ok(old(instance).value) && unchanged(this)
    {
      if ShouldUpdate(reload, args) {
        var c := Configuration.Load(args.directory, args.files, disk);
        if c.Err? {
          return Err(c.error);
        }
        configArgs := Some(args);
        instance := Some(c.value);
        builtFrom := Some(args);
      }
      return Ok(instance.value);
    }
  }

  /** A project whose only configuration file is "project/config.json". */
  const ScenarioDisk: Disk := map["project/config.json" := JObj([Field("x", JNum(1))])]

  lemma ScenarioPath()
    ensures PathJoin("project", "config.json") == "project/config.json"
    ensures ConfigReader("config.json") == Ok(JsonReader)
  {
    assert "config.json"[..1] == "c" && "project"[6..] == "t";
    assert "config.json"[6..] == ".json";
  }

  lemma ScenarioGoodLoad()
    ensures LoadConfig("project", ["config.json"], ScenarioDisk) == Ok([Field("x", JNum(1))])
  {
    ScenarioPath();
    assert WellFormed(JObj([Field("x", JNum(1))]));
    SingleFile("project", "config.json", ScenarioDisk);
  }

  lemma ScenarioBadLoad()
    ensures LoadConfig("project", ["config.toml"], ScenarioDisk) == Err(ValueError)
  {
    var name := "config.toml";
    assert name[|name| - 5..] == ".toml" && name[|name| - 4..] == "toml";
    assert ConfigReader(name).Err?;
    UnsupportedNameFails("project", [name], ScenarioDisk, 0);
  }

  /**
   * With the source's `get_config`: a good load, then a failing load with new
   * arguments, then the same new arguments again. The third call returns the
   * instance of the first, built from other arguments.
   */
  method StaleInstanceScenario() returns (first: Result<Configuration>, third: Result<Configuration>, p: ConfigProvider)
    ensures first.Ok? && third == first
    ensures p.configArgs == Some(ConfigArgs("project", ["config.toml"]))
    ensures p.builtFrom == Some(ConfigArgs("project", ["config.json"]))
    ensures !p.Valid()
  {
    var good := ConfigArgs("project", ["config.json"]);
    var bad := ConfigArgs("project", ["config.toml"]);
    ScenarioGoodLoad();
    ScenarioBadLoad();
    p := new ConfigProvider();
    first := p.GetConfigAsWritten(false, good, ScenarioDisk);
    var second := p.GetConfigAsWritten(false, bad, ScenarioDisk);
    third := p.GetConfigAsWritten(false, bad, ScenarioDisk);
  }
}
