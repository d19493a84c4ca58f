// The pathlib.PurePath operations the site generator applies to file paths:
// name, suffix, suffixes, stem, relative_to and str().

module PurePaths {
  import opened Wrappers
  import opened PyStrings

  /** A resolved absolute path, as the list of its components below the root '/'. */
  type Path = seq<string>

  /** `p.name`: the last component, "" for the root (and for the relative path "."). */
  function Name(p: Path): string {
    if |p| == 0 then "" else p[|p| - 1]
  }

  /** `str(p)` for an absolute path. */
  function AbsString(p: Path): string {
    "/" + Join(p, '/')
  }

  /** `str(p)` for a relative path: "." when it has no component. */
  function RelString(rel: Path): string {
    if |rel| == 0 then "." else Join(rel, '/')
  }

  /** `p.relative_to(base)`, which raises ValueError unless `base` is a prefix of `p`. */
  function RelativeTo(p: Path, base: Path): (r: Option<Path>)
    ensures r.Some? <==> base <= p
    ensures r.Some? ==> base + r.value == p
  {
    if base <= p then Some(p[|base|..]) else None
  }

  /** `name.suffix`: from the last '.', unless it is the first or the last character. */
  function Suffix(name: string): string {
    var i := RFind(name, '.');
    if 0 < i < |name| - 1 then name[i..] else ""
  }

  /** `name.stem`: the name without its `suffix`. */
  function Stem(name: string): (r: string)
    ensures r + Suffix(name) == name
  {
    var i := RFind(name, '.');
    if 0 < i < |name| - 1 then name[..i] else name
  }

  /**
   * `name.suffixes`: none if the name ends with '.'; otherwise, after the
   * leading dots are stripped, one "." + part for every part after the first
   * in a split on '.'.
   */
  function Suffixes(name: string): (r: seq<string>)
    ensures DottedParts(r)
    ensures EndsWith(name, Concat(r))
    ensures |r| > 0 ==> r[|r| - 1] == Suffix(name)
    ensures |name| > 0 && name[|name| - 1] == '.' ==> r == []
    ensures !(|name| > 0 && name[|name| - 1] == '.') ==> BeforeSuffixesDotless(name, r)
  {
    if |name| > 0 && name[|name| - 1] == '.' then []
    else
      var stripped := LStrip(name, '.');
      var parts := Split(stripped, '.');
      DottedTailMeetsSuffixes(name, stripped, parts);
      DottedTail(parts)
  }

  /** Every entry is a '.' followed by text with no '.'. */
  predicate DottedParts(r: seq<string>) {
    forall i :: 0 <= i < |r| ==> |r[i]| > 0 && r[i][0] == '.' && '.' !in r[i][1..]
  }

  /** What the entries leave of the name without its leading dots holds no '.'. */
  predicate BeforeSuffixesDotless(name: string, r: seq<string>) {
    var s := LStrip(name, '.');
    |Concat(r)| <= |s| && '.' !in s[..|s| - |Concat(r)|]
  }

  /** The strings written one after the other. */
  function Concat(r: seq<string>): string {
    if |r| == 0 then "" else r[0] + Concat(r[1..])
  }

  /** "." + part, for every part but the first. */
  function DottedTail(parts: seq<string>): seq<string>
    requires |parts| > 0
  {
    seq(|parts| - 1, i requires 0 <= i < |parts| - 1 => "." + parts[i + 1])
  }

  /** Joining on '.' is the first part followed by the dotted others. */
  lemma {:induction false} JoinDotted(parts: seq<string>)
    requires |parts| > 0
    ensures Join(parts, '.') == parts[0] + Concat(DottedTail(parts))
  {
    var t := DottedTail(parts);
    if |parts| == 1 {
      assert t == [];
    } else {
      JoinDotted(parts[1..]);
      assert t[1..] == DottedTail(parts[1..]);
      assert Concat(t) == "." + parts[1] + Concat(DottedTail(parts[1..]));
    }
  }

  /** The last string ends the concatenation. */
  lemma {:induction false} ConcatLast(r: seq<string>)
    requires |r| > 0
    ensures Concat(r) == Concat(r[..|r| - 1]) + r[|r| - 1]
  {
    if |r| > 1 {
      ConcatLast(r[1..]);
      assert r[1..][..|r| - 2] == r[..|r| - 1][1..];
    }
  }

  /** `a` ends with `c` when `a` ends with `b` and `b` ends with `c`. */
  lemma EndsWithTrans(a: string, b: string, c: string)
    requires EndsWith(a, b) && EndsWith(b, c)
    ensures EndsWith(a, c)
  {
    assert a[|a| - |c|..] == a[|a| - |b|..][|b| - |c|..];
  }

  /** The dotted parts after the first of what was split on '.' end it. */
  lemma DottedTailEnds(stripped: string, parts: seq<string>)
    requires parts == Split(stripped, '.')
    ensures stripped == parts[0] + Concat(DottedTail(parts))
    ensures EndsWith(stripped, Concat(DottedTail(parts)))
  {
    JoinSplit(stripped, '.');
    JoinDotted(parts);
  }

  /**
   * With two parts or more, what was split ends with '.' and the last part,
   * after some text that is not empty when it does not start with '.'.
   */
  lemma LastPartEnds(stripped: string, parts: seq<string>) returns (base: string)
    requires |parts| > 1 && parts == Split(stripped, '.')
    requires stripped == parts[0] + Concat(DottedTail(parts))
    requires |stripped| > 0 ==> stripped[0] != '.'
    ensures stripped == base + "." + parts[|parts| - 1]
    ensures |base| > 0 && '.' !in parts[|parts| - 1]
  {
    var t := DottedTail(parts);
    ConcatLast(t);
    base := parts[0] + Concat(t[..|t| - 1]);
    assert stripped[0] != '.';
  }

  /** A name that is some text, a '.' and a final part with no dot has that part as its suffix. */
  lemma DottedNameSuffix(name: string, stripped: string, base: string, last: string)
    requires !(|name| > 0 && name[|name| - 1] == '.')
    requires EndsWith(name, stripped) && stripped == base + "." + last
    requires |base| > 0 && '.' !in last
    ensures Suffix(name) == "." + last
  {
    var lead := name[..|name| - |stripped|];
    assert name == (lead + base) + "." + last;
    assert |last| > 0 by {
      assert name[|name| - 1] == stripped[|stripped| - 1];
    }
    StemOfDotted(lead + base, last);
  }

  /** What the dotted parts leave of the name without its leading dots is the first part, which holds no '.'. */
  lemma SuffixesLeaveDotless(name: string, stripped: string, parts: seq<string>)
    requires stripped == LStrip(name, '.') && parts == Split(stripped, '.')
    ensures BeforeSuffixesDotless(name, DottedTail(parts))
  {
    DottedTailEnds(stripped, parts);
    assert stripped[..|stripped| - |Concat(DottedTail(parts))|] == parts[0];
  }

  /** The dotted parts after the first, of the name without its leading dots, end the name. */
  lemma SuffixesEndName(name: string, stripped: string, parts: seq<string>)
    requires stripped == LStrip(name, '.') && parts == Split(stripped, '.')
    ensures EndsWith(name, Concat(DottedTail(parts)))
  {
    DottedTailEnds(stripped, parts);
    EndsWithTrans(name, stripped, Concat(DottedTail(parts)));
  }

  /** The last of those dotted parts is the name's suffix, unless the name ends with '.'. */
  lemma LastSuffixIsSuffix(name: string, stripped: string, parts: seq<string>)
    requires !(|name| > 0 && name[|name| - 1] == '.')
    requires stripped == LStrip(name, '.') && parts == Split(stripped, '.')
    requires |parts| > 1
    ensures DottedTail(parts)[|parts| - 2] == Suffix(name)
  {
    DottedTailEnds(stripped, parts);
    var base := LastPartEnds(stripped, parts);
    DottedNameSuffix(name, stripped, base, parts[|parts| - 1]);
  }

  /** The dotted parts after the first, of the name without its leading dots, meet the contract of `Suffixes`. */
  lemma DottedTailMeetsSuffixes(name: string, stripped: string, parts: seq<string>)
    requires !(|name| > 0 && name[|name| - 1] == '.')
    requires stripped == LStrip(name, '.') && parts == Split(stripped, '.')
    ensures DottedParts(DottedTail(parts))
    ensures EndsWith(name, Concat(DottedTail(parts)))
    ensures |DottedTail(parts)| > 0 ==> DottedTail(parts)[|DottedTail(parts)| - 1] == Suffix(name)
    ensures BeforeSuffixesDotless(name, DottedTail(parts))
  {
    SuffixesEndName(name, stripped, parts);
    SuffixesLeaveDotless(name, stripped, parts);
    if |parts| > 1 {
      LastSuffixIsSuffix(name, stripped, parts);
    }
  }

  /** The index of the first '.', or the length when there is none. */
  function FirstDot(s: string): (k: nat)
    ensures k <= |s|
  {
    if |s| == 0 || s[0] == '.' then 0 else 1 + FirstDot(s[1..])
  }

  /** Text with no '.' followed by nothing or by a '.': the first '.' is right after the text. */
  lemma {:induction false} FirstDotAfter(p: string, t: string)
    requires '.' !in p
    requires |t| == 0 || t[0] == '.'
    ensures FirstDot(p + t) == |p|
  {
    if |p| > 0 {
      assert (p + t)[1..] == p[1..] + t;
      FirstDotAfter(p[1..], t);
    }
  }

  /** Concatenated dotted entries are empty or start with '.'. */
  lemma ConcatStartsWithDot(r: seq<string>)
    requires DottedParts(r)
    ensures |r| > 0 ==> |Concat(r)| > 0 && Concat(r)[0] == '.'
  {
    if |r| > 0 {
      assert Concat(r) == r[0] + Concat(r[1..]);
    }
  }

  /**
   * A string splits in one way only into text with no '.' followed by
   * dotted entries.
   */
  lemma {:induction false} DotSplitUnique(p: string, r: seq<string>, q: string, u: seq<string>)
    requires p + Concat(r) == q + Concat(u)
    requires '.' !in p && '.' !in q
    requires DottedParts(r) && DottedParts(u)
    ensures p == q && r == u
    decreases |r|
  {
    var s := p + Concat(r);
    ConcatStartsWithDot(r);
    ConcatStartsWithDot(u);
    FirstDotAfter(p, Concat(r));
    FirstDotAfter(q, Concat(u));
    assert p == s[..|p|] == q;
    assert Concat(r) == Concat(u);
    if |r| > 0 {
      var x := r[0][1..];
      var y := u[0][1..];
      assert Concat(r) == r[0] + Concat(r[1..]) && r[0] == "." + x;
      assert Concat(u) == u[0] + Concat(u[1..]) && u[0] == "." + y;
      assert Concat(r) == "." + (x + Concat(r[1..])) && Concat(r)[1..] == x + Concat(r[1..]);
      assert Concat(u) == "." + (y + Concat(u[1..])) && Concat(u)[1..] == y + Concat(u[1..]);
      assert DottedParts(r[1..]) by {
        forall i | 0 <= i < |r| - 1 ensures |r[1..][i]| > 0 && r[1..][i][0] == '.' && '.' !in r[1..][i][1..] {
          assert r[1..][i] == r[i + 1];
        }
      }
      assert DottedParts(u[1..]) by {
        forall i | 0 <= i < |u| - 1 ensures |u[1..][i]| > 0 && u[1..][i][0] == '.' && '.' !in u[1..][i][1..] {
          assert u[1..][i] == u[i + 1];
        }
      }
      DotSplitUnique(x, r[1..], y, u[1..]);
      assert r == [r[0]] + r[1..] && u == [u[0]] + u[1..];
    }
  }

  /** A string ending with `s` and with the shorter `c`: `s` ends with `c`. */
  lemma EndsWithShorter(name: string, s: string, c: string)
    requires EndsWith(name, s) && EndsWith(name, c) && |c| <= |s|
    ensures s == s[..|s| - |c|] + c
  {
    assert s[|s| - |c|..] == name[|name| - |c|..];
  }

  /**
   * `Suffixes` is the only list its contract allows: any list of dotted
   * entries that ends the name and leaves no '.' before it, or is empty for
   * a name ending with '.', is `suffixes`.
   */
  lemma SuffixesUnique(name: string, r: seq<string>)
    requires DottedParts(r) && EndsWith(name, Concat(r))
    requires |name| > 0 && name[|name| - 1] == '.' ==> r == []
    requires !(|name| > 0 && name[|name| - 1] == '.') ==> BeforeSuffixesDotless(name, r)
    ensures r == Suffixes(name)
  {
    if !(|name| > 0 && name[|name| - 1] == '.') {
      var s := LStrip(name, '.');
      var v := Suffixes(name);
      EndsWithShorter(name, s, Concat(r));
      EndsWithShorter(name, s, Concat(v));
      DotSplitUnique(s[..|s| - |Concat(r)|], r, s[..|s| - |Concat(v)|], v);
    }
  }

  /** A path component the file system can hand out: not empty, no separator. */
  predicate IsComponent(c: string) {
    |c| > 0 && '/' !in c
  }

  /** `base + "." + ext` has stem `base` and suffix `"." + ext` when `ext` holds no dot. */
  lemma StemOfDotted(base: string, ext: string)
    requires |base| > 0
    requires |ext| > 0 && '.' !in ext
    ensures Stem(base + "." + ext) == base
    ensures Suffix(base + "." + ext) == "." + ext
  {
    var name := base + "." + ext;
    var d := |base|;
    assert name[d] == '.';
    forall j | d < j < |name| ensures name[j] != '.' {
      assert name[j] == ext[j - d - 1];
    }
    LastIndexOf(name, '.', d);
    assert name[..d] == base;
  }
}
