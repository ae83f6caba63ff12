/**
 * The Python string and posix-path primitives the modelled code relies on,
 * written out with their exact semantics: `lstrip`/`rstrip`/`strip` remove a
 * SET of characters (not a prefix), `replace` rewrites non-overlapping
 * occurrences from left to right, slicing past the end yields "".
 */
module PyStrings {

  /** The characters Python's `str.strip()` removes when called without argument (`str.isspace`). */
  const Whitespace: set<char> := {
    '\t', '\n', '\U{000B}', '\U{000C}', '\r', '\U{001C}', '\U{001D}', '\U{001E}', '\U{001F}', ' ',
    '\U{0085}', '\U{00A0}', '\U{1680}', '\U{2000}', '\U{2001}', '\U{2002}', '\U{2003}', '\U{2004}',
    '\U{2005}', '\U{2006}', '\U{2007}', '\U{2008}', '\U{2009}', '\U{200A}', '\U{2028}', '\U{2029}',
    '\U{202F}', '\U{205F}', '\U{3000}'
  }

  const Slash: set<char> := {'/'}

  predicate StartsWith(s: string, prefix: string) {
    |prefix| <= |s| && s[..|prefix|] == prefix
  }

  predicate EndsWith(s: string, suffix: string) {
    |suffix| <= |s| && s[|s| - |suffix|..] == suffix
  }

  /** `s[n:]` for a non-negative `n`: empty once `n` passes the end. */
  function DropPrefix(s: string, n: nat): (r: string)
    ensures n <= |s| ==> r == s[n..]
    ensures n >= |s| ==> r == []
  {
    if n <= |s| then s[n..] else []
  }

  /** Python's `s.lstrip(chars)`: drops the longest prefix made only of characters in `chars`. */
  function LStrip(s: string, chars: set<char>): (r: string)
    ensures |r| <= |s| && r == s[|s| - |r|..]
    ensures r == [] || r[0] !in chars
    ensures forall i :: 0 <= i < |s| - |r| ==> s[i] in chars
  {
    if s != [] && s[0] in chars then LStrip(s[1..], chars) else s
  }

  /** Python's `s.rstrip(chars)`: drops the longest suffix made only of characters in `chars`. */
  function RStrip(s: string, chars: set<char>): (r: string)
    ensures |r| <= |s| && r == s[..|r|]
    ensures r == [] || r[|r| - 1] !in chars
    ensures forall i :: |r| <= i < |s| ==> s[i] in chars
  {
    if s != [] && s[|s| - 1] in chars then RStrip(s[..|s| - 1], chars) else s
  }

  /** Python's `s.strip(chars)`. */
  function Strip(s: string, chars: set<char>): (r: string)
    ensures |r| <= |s|
    ensures r == [] || (r[0] !in chars && r[|r| - 1] !in chars)
  {
    RStrip(LStrip(s, chars), chars)
  }

  /** Python's `"/".join([a, b])`. */
  function SlashJoin(a: string, b: string): string {
    a + "/" + b
  }

  /** posix `os.path.isabs`. */
  predicate IsAbs(p: string) {
    StartsWith(p, "/")
  }

  /** posix `os.path.join(a, b)`: an absolute second part replaces the first. */
  function PathJoin(a: string, b: string): (r: string)
    ensures IsAbs(b) ==> r == b
    ensures !IsAbs(b) ==> StartsWith(r, a) && EndsWith(r, b)
  {
    if IsAbs(b) then b
    else if a == [] || EndsWith(a, "/") then a + b
    else a + "/" + b
  }

  /** `from` occurs in `s` at position `i`. */
  predicate OccursAt(s: string, from: string, i: nat) {
    i + |from| <= |s| && s[i..i + |from|] == from
  }

  /** Python's `s.replace(from, to)`: non-overlapping occurrences, scanned from the left. */
  function Replace(s: string, from: string, to: string): string
    requires from != []
    decreases |s|
  {
    if |s| < |from| then s
    else if s[..|from|] == from then to + Replace(s[|from|..], from, to)
    else [s[0]] + Replace(s[1..], from, to)
  }

  /** Replacing a pattern that does not occur leaves the string as it is. */
  lemma {:induction false} ReplaceAbsent(s: string, from: string, to: string)
    requires from != []
    requires forall i: nat :: !OccursAt(s, from, i)
    ensures Replace(s, from, to) == s
    decreases |s|
  {
    if |s| >= |from| {
      assert !OccursAt(s, from, 0);
      assert s[..|from|] != from;
      forall i: nat ensures !OccursAt(s[1..], from, i) {
        assert !OccursAt(s, from, i + 1);
      }
      ReplaceAbsent(s[1..], from, to);
    }
  }

  /** A character outside `chars` stops `lstrip`. */
  lemma LStripStopsAt(s: string, chars: set<char>)
    requires s != [] && s[0] !in chars
    ensures LStrip(s, chars) == s
  {
  }

  /** A last character outside `chars` stops `rstrip`. */
  lemma RStripStopsAt(s: string, chars: set<char>)
    requires s != [] && s[|s| - 1] !in chars
    ensures RStrip(s, chars) == s
  {
  }

  /** `lstrip` that removes exactly the first character. */
  lemma LStripOne(s: string, chars: set<char>)
    requires |s| >= 2 && s[0] in chars && s[1] !in chars
    ensures LStrip(s, chars) == s[1..]
  {
    LStripStopsAt(s[1..], chars);
  }

  /** `strip` leaves a string alone whose ends are outside `chars`. */
  lemma StripKeeps(s: string, chars: set<char>)
    requires s != [] && s[0] !in chars && s[|s| - 1] !in chars
    ensures Strip(s, chars) == s
  {
    LStripStopsAt(s, chars);
    RStripStopsAt(s, chars);
  }

  /** A prefix made of characters in `chars` is removed by `lstrip`, whatever follows it. */
  lemma {:induction false} LStripDrops(s: string, chars: set<char>, n: nat)
    requires n <= |s| && forall i :: 0 <= i < n ==> s[i] in chars
    ensures LStrip(s, chars) == LStrip(s[n..], chars)
  {
    if n > 0 {
      assert s[1..][n - 1..] == s[n..];
      LStripDrops(s[1..], chars, n - 1);
    }
  }

  /** `lstrip` removes everything it can in one pass. */
  lemma {:induction false} LStripIdempotent(s: string, chars: set<char>)
    ensures LStrip(LStrip(s, chars), chars) == LStrip(s, chars)
  {
    var r := LStrip(s, chars);
    if r != [] {
      LStripStopsAt(r, chars);
    }
  }

  /** The length of the head `os.path.split` keeps: everything up to the last "/". */
  function HeadLength(p: string): (n: nat)
    ensures n <= |p|
    ensures n == 0 || p[n - 1] == '/'
    ensures forall i :: n <= i < |p| ==> p[i] != '/'
  {
    if p == [] then 0
    else if p[|p| - 1] == '/' then |p|
    else HeadLength(p[..|p| - 1])
  }

  /** posix `os.path.dirname`: the head, its trailing slashes removed unless it is only slashes. */
  function Dirname(p: string): (r: string)
    ensures r == [] <==> forall i :: 0 <= i < |p| ==> p[i] != '/'
    ensures StartsWith(p, r)
    ensures |r| <= HeadLength(p)
  {
    var head := p[..HeadLength(p)];
    if head == [] || forall i :: 0 <= i < |head| ==> head[i] == '/' then head
    else
      var r := RStrip(head, Slash);
      assert r != [] by {
        var k :| 0 <= k < |head| && head[k] != '/';
      }
      r
  }
}
