// The handful of Python string and os.path operations that the site generator
// uses on file names and paths: str.endswith, str.split, '/'.join, str.replace,
// os.path.splitext and os.path.join (POSIX flavour, separator '/').

module PyStrings {

  /** `s.endswith(suffix)` */
  predicate EndsWith(s: string, suffix: string) {
    |suffix| <= |s| && s[|s| - |suffix|..] == suffix
  }

  /** `s.endswith(tuple(suffixes))`: true when any of them ends `s` (false for none). */
  predicate EndsWithAny(s: string, suffixes: set<string>) {
    exists x :: x in suffixes && EndsWith(s, x)
  }

  /** `pat` occurs in `s` starting at index `i`. */
  ghost predicate OccursAt(s: string, pat: string, i: int) {
    0 <= i && i + |pat| <= |s| && s[i..i + |pat|] == pat
  }

  ghost predicate Contains(s: string, pat: string) {
    exists i :: OccursAt(s, pat, i)
  }

  /** `s.lstrip(c)` for a single character. */
  function LStrip(s: string, c: char): (r: string)
    ensures |r| <= |s| && EndsWith(s, r)
    ensures |r| > 0 ==> r[0] != c
  {
    if |s| > 0 && s[0] == c then LStrip(s[1..], c) else s
  }

  /** What `lstrip` removes is a run of `c`. */
  lemma {:induction false} LStripRemovesOnly(s: string, c: char)
    ensures forall i :: 0 <= i < |s| - |LStrip(s, c)| ==> s[i] == c
  {
    if |s| > 0 && s[0] == c {
      LStripRemovesOnly(s[1..], c);
      assert forall i :: 1 <= i < |s| ==> s[i] == s[1..][i - 1];
    }
  }

  /** `s.split(sep)` with a one-character separator. */
  function Split(s: string, sep: char): (parts: seq<string>)
    ensures |parts| >= 1
    ensures forall i :: 0 <= i < |parts| ==> sep !in parts[i]
  {
    if |s| == 0 then [""]
    else
      var rest := Split(s[1..], sep);
      if s[0] == sep then [""] + rest
      else [[s[0]] + rest[0]] + rest[1..]
  }

  /** `sep.join(parts)` */
  function Join(parts: seq<string>, sep: char): string {
    if |parts| == 0 then ""
    else if |parts| == 1 then parts[0]
    else parts[0] + [sep] + Join(parts[1..], sep)
  }

  /** `s.rfind(c)`: the last index holding `c`, or -1. */
  function RFind(s: string, c: char): (i: int)
    ensures -1 <= i < |s|
    ensures i >= 0 ==> s[i] == c
  {
    if |s| == 0 then -1
    else if s[|s| - 1] == c then |s| - 1
    else RFind(s[..|s| - 1], c)
  }

  /** No `c` follows the index `rfind` returns. */
  lemma {:induction false} RFindIsLast(s: string, c: char)
    ensures forall j :: RFind(s, c) < j < |s| ==> s[j] != c
  {
    if |s| > 0 && s[|s| - 1] != c {
      RFindIsLast(s[..|s| - 1], c);
    }
  }

  /**
   * `os.path.splitext(p)`: the extension is the text from the last '.' of the
   * last path component, provided that component has a character other than
   * '.' before it (so ".bashrc" and "..x" have no extension).
   */
  function SplitExt(p: string): (r: (string, string))
    ensures r.0 + r.1 == p
    ensures r.1 == "" || (r.1[0] == '.' && '.' !in r.1[1..] && '/' !in r.1)
  {
    RFindIsLast(p, '/');
    RFindIsLast(p, '.');
    var sepIndex := RFind(p, '/');
    var dotIndex := RFind(p, '.');
    if dotIndex > sepIndex && exists k | sepIndex < k < dotIndex :: p[k] != '.' then
      (p[..dotIndex], p[dotIndex..])
    else
      (p, "")
  }

  /**
   * `s.replace(pat, repl)`: every non-overlapping occurrence, scanning left to
   * right; an empty `pat` inserts `repl` around every character.
   */
  function Replace(s: string, pat: string, repl: string): string
    decreases |s|
  {
    if |pat| == 0 then
      (if |s| == 0 then repl else repl + [s[0]] + Replace(s[1..], pat, repl))
    else if pat <= s then repl + Replace(s[|pat|..], pat, repl)
    else if |s| == 0 then ""
    else [s[0]] + Replace(s[1..], pat, repl)
  }

  /** `os.path.join(path, *rest)` on POSIX. */
  function JoinPathFrom(path: string, rest: seq<string>): string
    decreases |rest|
  {
    if |rest| == 0 then path
    else
      var b := rest[0];
      var next :=
        if |b| > 0 && b[0] == '/' then b
        else if |path| == 0 || path[|path| - 1] == '/' then path + b
        else path + "/" + b;
      JoinPathFrom(next, rest[1..])
  }

  /** `os.path.join(*parts)` */
  function JoinPath(parts: seq<string>): string
    requires |parts| > 0
  {
    JoinPathFrom(parts[0], parts[1..])
  }

  /** What os.path.normpath does with one component, given the components kept so far. */
  function NormStep(kept: seq<string>, comp: string, rooted: bool): seq<string> {
    if comp == "" || comp == "." then kept
    else if comp != ".." || (!rooted && |kept| == 0) || (|kept| > 0 && kept[|kept| - 1] == "..") then kept + [comp]
    else if |kept| > 0 then kept[..|kept| - 1]
    else kept
  }

  /**
   * The components os.path.normpath keeps, left to right: no empty or "."
   * component survives, and a ".." survives only at the start of a relative path.
   */
  function NormComps(comps: seq<string>, rooted: bool): (kept: seq<string>)
    ensures forall i :: 0 <= i < |kept| ==> kept[i] != "" && kept[i] != "."
    ensures forall i :: 0 <= i < |kept| && kept[i] == ".." ==> !rooted && forall j :: 0 <= j < i ==> kept[j] == ".."
    decreases |comps|
  {
    if |comps| == 0 then []
    else NormStep(NormComps(comps[..|comps| - 1], rooted), comps[|comps| - 1], rooted)
  }

  /**
   * `os.path.normpath(p)` on POSIX: one or two leading slashes are kept (three
   * or more become one), empty and "." components go, ".." removes the
   * component before it, and the empty result is ".".
   */
  function NormPath(p: string): (r: string)
    ensures |r| > 0
    ensures |p| > 0 && p[0] == '/' ==> r[0] == '/'
  {
    if |p| == 0 then "."
    else
      var slashes :=
        if p[0] != '/' then ""
        else if |p| >= 2 && p[1] == '/' && (|p| == 2 || p[2] != '/') then "//"
        else "/";
      var path := slashes + Join(NormComps(Split(p, '/'), |slashes| > 0), '/');
      if |path| == 0 then "." else path
  }

  /** `./name` normalises to `name` for a plain name: the default folders lose their "./". */
  lemma NormPathDotSlash(name: string)
    requires |name| > 0 && '/' !in name && name != "." && name != ".."
    ensures NormPath("./" + name) == name
  {
    SplitAtFirstSeparator(".", '/', name);
    SplitWithoutSeparator(name, '/');
    assert "." + ['/'] + name == "./" + name;
    var comps := Split("./" + name, '/');
    assert comps == [".", name];
    assert comps[..1] == ["."];
    assert NormComps(comps[..1], false) == [];
  }

  // ---------------------------------------------------------------------------
  // Split and Join are inverse to each other.

  lemma {:induction false} SplitWithoutSeparator(w: string, sep: char)
    requires sep !in w
    ensures Split(w, sep) == [w]
  {
    if |w| > 0 {
      SplitWithoutSeparator(w[1..], sep);
      assert [w[0]] + w[1..] == w;
    }
  }

  lemma {:induction false} SplitAtFirstSeparator(w: string, sep: char, t: string)
    requires sep !in w
    ensures Split(w + [sep] + t, sep) == [w] + Split(t, sep)
  {
    if |w| == 0 {
      assert (w + [sep] + t)[1..] == t;
    } else {
      assert (w + [sep] + t)[1..] == w[1..] + [sep] + t;
      SplitAtFirstSeparator(w[1..], sep, t);
      assert [w[0]] + w[1..] == w;
    }
  }

  /** Splitting a joined list gives the list back when no part holds the separator. */
  lemma {:induction false} SplitJoin(parts: seq<string>, sep: char)
    requires |parts| >= 1
    requires forall i :: 0 <= i < |parts| ==> sep !in parts[i]
    ensures Split(Join(parts, sep), sep) == parts
  {
    if |parts| == 1 {
      SplitWithoutSeparator(parts[0], sep);
    } else {
      SplitJoin(parts[1..], sep);
      SplitAtFirstSeparator(parts[0], sep, Join(parts[1..], sep));
      assert [parts[0]] + parts[1..] == parts;
    }
  }

  /** Joining the parts of a split gives the string back. */
  lemma {:induction false} JoinSplit(s: string, sep: char)
    ensures Join(Split(s, sep), sep) == s
  {
    if |s| > 0 {
      JoinSplit(s[1..], sep);
      var rest := Split(s[1..], sep);
      if s[0] == sep {
        assert [""] + rest == [""] + rest;
        assert ([""] + rest)[1..] == rest;
        assert [s[0]] + s[1..] == s;
      } else {
        var parts := [[s[0]] + rest[0]] + rest[1..];
        assert parts[1..] == rest[1..];
        if |rest| == 1 {
          assert rest == [rest[0]];
        } else {
          assert rest == [rest[0]] + rest[1..];
        }
        assert [s[0]] + s[1..] == s;
      }
    }
  }

  // ---------------------------------------------------------------------------
  // str.replace facts used by the destination-path and template computations.

  /** A string with no occurrence of `pat` is left as it is. */
  lemma {:induction false} ReplaceAbsent(s: string, pat: string, repl: string)
    requires |pat| > 0
    requires !Contains(s, pat)
    ensures Replace(s, pat, repl) == s
  {
    if |s| > 0 {
      assert !OccursAt(s, pat, 0);
      forall i ensures !OccursAt(s[1..], pat, i) {
        assert !OccursAt(s, pat, i + 1);
        if 0 <= i && i + |pat| <= |s| - 1 {
          assert s[i + 1..i + 1 + |pat|] == s[1..][i..i + |pat|];
        }
      }
      ReplaceAbsent(s[1..], pat, repl);
      assert [s[0]] + s[1..] == s;
    }
  }

  /** Replacement distributes over a leading occurrence. */
  lemma LeadingReplaced(pat: string, t: string, repl: string)
    requires |pat| > 0
    ensures Replace(pat + t, pat, repl) == repl + Replace(t, pat, repl)
  {
    assert pat <= pat + t;
    assert (pat + t)[|pat|..] == t;
  }

  /**
   * Deleting `pat` from `x + pat`, when no occurrence of it starts inside `x`,
   * removes exactly the trailing one.
   */
  lemma {:induction false} TrailingDeleted(x: string, pat: string)
    requires |pat| > 0
    requires forall i :: 0 <= i < |x| ==> !OccursAt(x + pat, pat, i)
    ensures Replace(x + pat, pat, "") == x
  {
    if |x| == 0 {
      assert pat + [] == pat;
      assert pat[|pat|..] == [];
    } else {
      assert !OccursAt(x + pat, pat, 0);
      assert !(pat <= x + pat);
      assert (x + pat)[1..] == x[1..] + pat;
      forall i | 0 <= i < |x[1..]|
        ensures !OccursAt(x[1..] + pat, pat, i)
      {
        assert !OccursAt(x + pat, pat, i + 1);
        assert (x + pat)[i + 1..i + 1 + |pat|] == (x[1..] + pat)[i..i + |pat|];
      }
      TrailingDeleted(x[1..], pat);
      assert [x[0]] + x[1..] == x;
    }
  }

  /** A stretch without the pattern's first character is copied unchanged. */
  lemma {:induction false} ReplaceSkip(x: string, rest: string, pat: string, repl: string)
    requires |pat| > 0 && pat[0] !in x
    ensures Replace(x + rest, pat, repl) == x + Replace(rest, pat, repl)
  {
    if |x| > 0 {
      var s := x + rest;
      assert s[0] == x[0] && !(pat <= s);
      assert s[1..] == x[1..] + rest;
      ReplaceSkip(x[1..], rest, pat, repl);
      assert [x[0]] + (x[1..] + Replace(rest, pat, repl)) == x + Replace(rest, pat, repl);
    } else {
      assert x + rest == rest;
    }
  }

  /** A string without the pattern's first character is left as it is. */
  lemma ReplaceNone(s: string, pat: string, repl: string)
    requires |pat| > 0 && pat[0] !in s
    ensures Replace(s, pat, repl) == s
  {
    ReplaceSkip(s, "", pat, repl);
    assert s + "" == s;
  }

  /** One occurrence between stretches without the pattern's first character. */
  lemma ReplaceOnce(a: string, pat: string, b: string, repl: string)
    requires |pat| > 0 && pat[0] !in a && pat[0] !in b
    ensures Replace(a + (pat + b), pat, repl) == a + (repl + b)
  {
    ReplaceNone(b, pat, repl);
    LeadingReplaced(pat, b, repl);
    ReplaceSkip(a, pat + b, pat, repl);
  }

  /** Two occurrences between stretches without the pattern's first character. */
  lemma ReplaceTwice(a: string, pat: string, b: string, c: string, repl: string)
    requires |pat| > 0 && pat[0] !in a && pat[0] !in b && pat[0] !in c
    ensures Replace(a + (pat + (b + (pat + c))), pat, repl) == a + (repl + (b + (repl + c)))
  {
    ReplaceOnce(b, pat, c, repl);
    LeadingReplaced(pat, b + (pat + c), repl);
    ReplaceSkip(a, pat + (b + (pat + c)), pat, repl);
  }

  /** A pattern that occurs only at the start is replaced there and nowhere else. */
  lemma ReplaceOnlyAtStart(pat: string, y: string, repl: string)
    requires |pat| > 0
    requires forall i :: OccursAt(pat + y, pat, i) ==> i == 0
    ensures Replace(pat + y, pat, repl) == repl + y
  {
    var s := pat + y;
    LeadingReplaced(pat, y, repl);
    forall i ensures !OccursAt(y, pat, i) {
      if 0 <= i && i + |pat| <= |y| {
        assert s[i + |pat|..i + |pat| + |pat|] == y[i..i + |pat|];
        assert OccursAt(s, pat, i + |pat|) == OccursAt(y, pat, i);
      }
    }
    ReplaceAbsent(y, pat, repl);
  }

  /** Replacing a pattern that occurs exactly once replaces that occurrence and nothing else. */
  lemma {:induction false} ReplaceUnique(x: string, pat: string, y: string, repl: string)
    requires |pat| > 0
    requires forall i :: OccursAt(x + pat + y, pat, i) ==> i == |x|
    ensures Replace(x + pat + y, pat, repl) == x + repl + y
  {
    var s := x + pat + y;
    if |x| == 0 {
      assert s == pat + y;
      ReplaceOnlyAtStart(pat, y, repl);
    } else {
      var t := x[1..] + pat + y;
      assert !OccursAt(s, pat, 0);
      assert !(pat <= s);
      assert s[1..] == t;
      assert Replace(s, pat, repl) == [x[0]] + Replace(t, pat, repl);
      forall i | OccursAt(t, pat, i) ensures i == |x[1..]| {
        assert s[i + 1..i + 1 + |pat|] == t[i..i + |pat|];
        assert OccursAt(s, pat, i + 1);
      }
      ReplaceUnique(x[1..], pat, y, repl);
      assert [x[0]] + (x[1..] + repl + y) == x + repl + y;
    }
  }

  // ---------------------------------------------------------------------------
  // os.path.splitext on a component with one proper extension.

  lemma {:induction false} LastIndexOf(p: string, c: char, i: int)
    requires -1 <= i < |p|
    requires i >= 0 ==> p[i] == c
    requires forall j :: i < j < |p| ==> p[j] != c
    ensures RFind(p, c) == i
    decreases |p|
  {
    if i < |p| - 1 {
      var q := p[..|p| - 1];
      assert forall j :: i < j < |q| ==> q[j] == p[j];
      LastIndexOf(q, c, i);
    }
  }

  /** Appending `"." + e`, with no '.' in `e`, puts the last '.' just after `root`. */
  lemma {:induction false} RFindAddedDot(root: string, e: string)
    requires '.' !in e
    ensures RFind(root + "." + e, '.') == |root|
    decreases |e|
  {
    var p := root + "." + e;
    if |e| > 0 {
      var shorter := e[..|e| - 1];
      assert e[|e| - 1] in e;
      assert p[..|p| - 1] == root + "." + shorter;
      assert '.' !in shorter by {
        assert forall i :: 0 <= i < |shorter| ==> shorter[i] == e[i];
      }
      RFindAddedDot(root, shorter);
    }
  }

  /** Appending `"." + e`, with no '/' in `e`, leaves the last '/' where it was in `root`. */
  lemma {:induction false} RFindSlashKept(root: string, e: string)
    requires '/' !in e
    ensures RFind(root + "." + e, '/') == RFind(root, '/')
    decreases |e|
  {
    var p := root + "." + e;
    if |e| == 0 {
      assert p[..|p| - 1] == root;
    } else {
      var shorter := e[..|e| - 1];
      assert e[|e| - 1] in e;
      assert p[..|p| - 1] == root + "." + shorter;
      assert '/' !in shorter by {
        assert forall i :: 0 <= i < |shorter| ==> shorter[i] == e[i];
      }
      RFindSlashKept(root, shorter);
    }
  }

  /**
   * A path whose last component is `b + "." + e`, with `e` free of '.' and '/'
   * and `b`'s part of that component holding some non-dot character, loses
   * exactly `"." + e`.
   */
  lemma SplitExtProper(root: string, e: string)
    requires |e| > 0 && '.' !in e && '/' !in e
    requires exists k | RFind(root, '/') < k < |root| :: root[k] != '.'
    ensures SplitExt(root + "." + e) == (root, "." + e)
  {
    var p := root + "." + e;
    var d := |root|;
    assert p[..d] == root && p[d..] == "." + e;
    RFindAddedDot(root, e);
    RFindSlashKept(root, e);
    var k :| RFind(root, '/') < k < |root| && root[k] != '.';
    assert p[k] == root[k];
    assert RFind(p, '/') < k < RFind(p, '.');
  }
}
