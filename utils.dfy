// snek/utils.py: finding the files of a folder that a loader should read,
// turning a file's path into the key path it is stored under, and the
// dictionary that stores a value under a key path.

module Utils {
  import opened Wrappers
  import opened PyStrings
  import opened PurePaths
  import opened NestedTree

  // ---------------------------------------------------------------------------
  // find_files

  // One path that `Path(where).glob("**/*")` yields, in the order it yields
  // them: the path itself, what `resolve()` makes of it, and what the file
  // system answers to `is_file()` and `os.access(p, os.R_OK)`.
  datatype Entry = Entry(path: Path, resolved: Path, isFile: bool, readable: bool)

  // The glob pattern `"**/*" + extra`: with an extra suffix only names ending in it match.
  predicate MatchesPattern(e: Entry, extraSuffix: string) {
    |extraSuffix| == 0 || EndsWith(Name(e.path), extraSuffix)
  }

  /** `p.is_file() and os.access(p, os.R_OK)` */
  predicate IsReadable(e: Entry) {
    e.isFile && e.readable
  }

  /** `any([suffix in suffixes for suffix in p.suffixes])` */
  predicate HasValidSuffix(e: Entry, suffixes: set<string>) {
    var sfx := Suffixes(Name(e.path));
    exists i :: 0 <= i < |sfx| && sfx[i] in suffixes
  }

  predicate Selected(e: Entry, suffixes: set<string>, extraSuffix: string) {
    MatchesPattern(e, extraSuffix) && IsReadable(e) && HasValidSuffix(e, suffixes)
  }

  /** The resolved paths of the entries that `keep` accepts, in order. */
  function Filter(listing: seq<Entry>, keep: Entry -> bool): (r: seq<Path>)
    ensures |r| <= |listing|
    ensures forall i :: 0 <= i < |listing| && keep(listing[i]) ==> listing[i].resolved in r
  {
    if |listing| == 0 then []
    else
      var rest := Filter(listing[1..], keep);
      assert forall i :: 1 <= i < |listing| ==> listing[i] == listing[1..][i - 1];
      if keep(listing[0]) then [listing[0].resolved] + rest else rest
  }

  /** `idx` is strictly increasing and within `n`. */
  ghost predicate Increasing(idx: seq<int>, n: int) {
    (forall k :: 0 <= k < |idx| ==> 0 <= idx[k] < n) &&
    (forall k, l :: 0 <= k < l < |idx| ==> idx[k] < idx[l])
  }

  /** A filter that accepts nothing keeps nothing. */
  lemma {:induction false} FilterNone(listing: seq<Entry>, keep: Entry -> bool)
    requires forall e :: !keep(e)
    ensures Filter(listing, keep) == []
  {
    if |listing| > 0 {
      FilterNone(listing[1..], keep);
    }
  }

  /** Moving every position one place on keeps a choice of positions increasing. */
  lemma ShiftedIncreasing(tail: seq<int>, n: int, first: bool) returns (idx: seq<int>)
    requires n >= 0 && Increasing(tail, n)
    ensures |idx| == |tail| + (if first then 1 else 0)
    ensures Increasing(idx, n + 1)
    ensures first ==> idx[0] == 0
    ensures forall k :: |idx| - |tail| <= k < |idx| ==> idx[k] == tail[k - (|idx| - |tail|)] + 1
  {
    var d := if first then 1 else 0;
    var shifted := seq(|tail|, k requires 0 <= k < |tail| => tail[k] + 1);
    idx := if first then [0] + shifted else shifted;
    assert forall k :: d <= k < |idx| ==> idx[k] == tail[k - d] + 1;
    forall k, l | 0 <= k < l < |idx| ensures idx[k] < idx[l] {
      if k >= d {
        assert tail[k - d] < tail[l - d];
      }
    }
  }

  /** `r` lists, in order, the resolved paths of the entries of `listing` at the positions `idx`, all accepted. */
  ghost predicate Picks(listing: seq<Entry>, keep: Entry -> bool, idx: seq<int>, r: seq<Path>) {
    |idx| == |r| &&
    forall k :: 0 <= k < |idx| ==>
      0 <= idx[k] < |listing| && keep(listing[idx[k]]) && r[k] == listing[idx[k]].resolved
  }

  /** Positions picked in the tail, moved one place on, are picked in the whole listing. */
  lemma ShiftPicks(listing: seq<Entry>, keep: Entry -> bool, tail: seq<int>, f: seq<Path>, idx: seq<int>, first: bool)
    requires |listing| > 0 && first == keep(listing[0])
    requires Picks(listing[1..], keep, tail, f)
    requires |idx| == |tail| + (if first then 1 else 0)
    requires first ==> idx[0] == 0
    requires forall k :: |idx| - |tail| <= k < |idx| ==> idx[k] == tail[k - (|idx| - |tail|)] + 1
    ensures Picks(listing, keep, idx, (if first then [listing[0].resolved] else []) + f)
  {
    var rest := listing[1..];
    var d := |idx| - |tail|;
    var r := (if first then [listing[0].resolved] else []) + f;
    forall k | 0 <= k < |idx|
      ensures 0 <= idx[k] < |listing| && keep(listing[idx[k]]) && r[k] == listing[idx[k]].resolved
    {
      if k >= d {
        var j := k - d;
        assert idx[k] == tail[j] + 1;
        assert 0 <= tail[j] < |rest| && f[j] == rest[tail[j]].resolved;
        assert r[k] == f[j];
        assert listing[idx[k]] == rest[tail[j]];
      }
    }
  }

  /** Every accepted entry of the listing is at one of the positions, when every accepted entry of the tail is. */
  lemma ShiftCovers(listing: seq<Entry>, keep: Entry -> bool, tail: seq<int>, idx: seq<int>, first: bool)
    requires |listing| > 0 && first == keep(listing[0])
    requires forall i :: 0 <= i < |listing| - 1 && keep(listing[1..][i]) ==> i in tail
    requires |idx| == |tail| + (if first then 1 else 0)
    requires first ==> idx[0] == 0
    requires forall k :: |idx| - |tail| <= k < |idx| ==> idx[k] == tail[k - (|idx| - |tail|)] + 1
    ensures forall i :: 0 <= i < |listing| && keep(listing[i]) ==> i in idx
  {
    var rest := listing[1..];
    var d := |idx| - |tail|;
    forall i | 0 <= i < |listing| && keep(listing[i]) ensures i in idx {
      if i > 0 {
        assert rest[i - 1] == listing[i];
        assert i - 1 in tail;
        var k :| 0 <= k < |tail| && tail[k] == i - 1;
        assert idx[k + d] == i;
      }
    }
  }

  /** Filter keeps the accepted entries in order: an increasing choice of positions picks exactly them. */
  lemma {:induction false} FilterInOrder(listing: seq<Entry>, keep: Entry -> bool) returns (idx: seq<int>)
    ensures Increasing(idx, |listing|)
    ensures Picks(listing, keep, idx, Filter(listing, keep))
    ensures forall i :: 0 <= i < |listing| && keep(listing[i]) ==> i in idx
  {
    if |listing| == 0 {
      return [];
    }
    var rest := listing[1..];
    var tail := FilterInOrder(rest, keep);
    var first := keep(listing[0]);
    idx := ShiftedIncreasing(tail, |rest|, first);
    var f := Filter(rest, keep);
    assert Filter(listing, keep) == (if first then [listing[0].resolved] else []) + f;
    ShiftPicks(listing, keep, tail, f, idx, first);
    ShiftCovers(listing, keep, tail, idx, first);
  }

  /**
   * The resolved paths of the readable regular files, among those the glob
   * yields, that carry an accepted suffix; in glob order. `suffixes = None`
   * is the empty set.
   */
  function FindFiles(listing: seq<Entry>, suffixes: set<string>, extraSuffix: string): (r: seq<Path>)
    ensures |r| <= |listing|
    ensures forall i :: 0 <= i < |listing| && Selected(listing[i], suffixes, extraSuffix) ==> listing[i].resolved in r
  {
    Filter(listing, e => Selected(e, suffixes, extraSuffix))
  }

  /**
   * The result is the selected entries in glob order: there is a strictly
   * increasing choice of positions that picks exactly the selected entries,
   * and the result lists their resolved paths in that order.
   */
  lemma FindFilesInOrder(listing: seq<Entry>, suffixes: set<string>, extraSuffix: string)
    returns (idx: seq<int>)
    ensures Increasing(idx, |listing|)
    ensures |idx| == |FindFiles(listing, suffixes, extraSuffix)|
    ensures forall k :: 0 <= k < |idx| ==>
      Selected(listing[idx[k]], suffixes, extraSuffix) &&
      FindFiles(listing, suffixes, extraSuffix)[k] == listing[idx[k]].resolved
    ensures forall i :: 0 <= i < |listing| && Selected(listing[i], suffixes, extraSuffix) ==> i in idx
  {
    idx := FilterInOrder(listing, e => Selected(e, suffixes, extraSuffix));
  }

  /** With no accepted suffixes (`suffixes=None`) nothing is found, since `any([])` is false. */
  lemma FindFilesNoSuffixes(listing: seq<Entry>, extraSuffix: string)
    ensures FindFiles(listing, {}, extraSuffix) == []
  {
    FilterNone(listing, e => Selected(e, {}, extraSuffix));
  }

  // ---------------------------------------------------------------------------
  // get_nested_keys_from_filepath

  /**
   * The last key: the stem of the file name, losing one more extension when
   * that stem still ends with one of `stripSuffixes` (`name.json.md`).
   */
  function FinalKey(name: string, stripSuffixes: set<string>): (r: string)
    ensures r <= name
    ensures stripSuffixes == {} ==> r == Stem(name)
  {
    var stem := Stem(name);
    if EndsWithAny(stem, stripSuffixes) then SplitExt(stem).0 else stem
  }

  /**
   * The key path of `filepath` under the resolved folder `root`: the folders
   * between them, then the final key. None when `relative_to` raises because
   * the file is not under `root`.
   */
  function NestedKeysFromFilepath(filepath: Path, root: Path, stripSuffixes: set<string>): (r: Option<seq<string>>)
    ensures r.Some? <==> root <= filepath
    ensures r.Some? ==> |r.value| >= 1
  {
    match RelativeTo(filepath, root)
    case None => None
    case Some(rel) =>
      var parts := Split(RelString(rel), '/');
      Some(parts[..|parts| - 1] + [FinalKey(Name(rel), stripSuffixes)])
  }

  /**
   * For a file strictly under `root`, the keys are the folder names in
   * between, verbatim and in order, followed by exactly one final key.
   */
  lemma NestedKeysShape(filepath: Path, root: Path, stripSuffixes: set<string>)
    requires root < filepath
    requires forall i :: 0 <= i < |filepath| ==> IsComponent(filepath[i])
    ensures NestedKeysFromFilepath(filepath, root, stripSuffixes)
      == Some(filepath[|root|..|filepath| - 1] + [FinalKey(Name(filepath), stripSuffixes)])
  {
    var rel := filepath[|root|..];
    assert RelativeTo(filepath, root) == Some(rel);
    assert RelString(rel) == Join(rel, '/');
    forall i | 0 <= i < |rel| ensures '/' !in rel[i] {
      assert rel[i] == filepath[|root| + i];
    }
    SplitJoin(rel, '/');
    var parts := Split(RelString(rel), '/');
    assert parts == rel;
    assert Name(rel) == Name(filepath);
    assert parts[..|parts| - 1] == filepath[|root|..|filepath| - 1];
  }

  /**
   * A name with two extensions whose inner one is a strip suffix loses both:
   * `test1.json.md` becomes `test1` when `.json` is stripped.
   */
  lemma FinalKeyDoubleSuffix(base: string, inner: string, outer: string, stripSuffixes: set<string>)
    requires '/' !in base && exists k :: 0 <= k < |base| && base[k] != '.'
    requires |inner| > 0 && '.' !in inner && '/' !in inner
    requires |outer| > 0 && '.' !in outer
    requires "." + inner in stripSuffixes
    ensures FinalKey(base + "." + inner + "." + outer, stripSuffixes) == base
  {
    StemOfDotted(base + "." + inner, outer);
    assert EndsWith(base + "." + inner, "." + inner);
    assert RFind(base, '/') == -1 by { LastIndexOf(base, '/', -1); }
    SplitExtProper(base, inner);
  }

  /** A name with a single extension loses just that extension when its stem ends with no strip suffix. */
  lemma FinalKeySingleSuffix(base: string, ext: string, stripSuffixes: set<string>)
    requires |base| > 0
    requires |ext| > 0 && '.' !in ext
    requires forall s :: s in stripSuffixes ==> !EndsWith(base, s)
    ensures FinalKey(base + "." + ext, stripSuffixes) == base
  {
    StemOfDotted(base, ext);
  }

  // ---------------------------------------------------------------------------
  // SnekDict

  /** Raised when the final key of an insertion is already taken. */
  datatype DuplicateKeyError = DuplicateKeyError(message: string)

  /** A dictionary whose values may be stored under a path of nested keys. */
  class SnekDict<V> {
    var entries: Tree<V>

    constructor()
      ensures entries == map[]
    {
      entries := map[];
    }

    /**
     * Store `value` under `keys`, creating the missing levels; nothing happens
     * for no keys; a taken final key raises DuplicateKeyError and leaves the
     * dictionary as it was.
     */
    method UpdateFromNestedKeys(keys: seq<string>, value: V) returns (err: Option<DuplicateKeyError>)
      requires NoLeafOnPath(entries, keys)
      modifies this
      ensures |keys| == 0 ==> err.None? && entries == old(entries)
      ensures err.Some? <==> |keys| > 0 && Get(old(entries), keys).Some?
      ensures err.Some? ==> entries == old(entries) && err.value == DuplicateKeyError(ConflictMessage(keys))
      ensures err.None? ==> Put(old(entries), keys, value) == Stored(entries)
    {
      if |keys| == 0 {
        return None;
      }
      var r := InsertAt(entries, keys, value);
      match r
      case Conflict =>
        err := Some(DuplicateKeyError(ConflictMessage(keys)));
      case Stored(t) =>
        entries := t;
        err := None;
    }
  }
}
