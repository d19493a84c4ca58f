// The nested dictionary that holds the site's shared data and its sitemap:
// a path of keys addresses a value; intermediate levels are created on demand;
// a key that is already taken at the end of the path is a conflict and the
// tree is left as it was.

module NestedTree {
  import opened Wrappers
  import PyStrings

  /** A value at the end of a key path, or a dictionary of further levels. */
  datatype Node<V> = Leaf(value: V) | Branch(children: map<string, Node<V>>)

  type Tree<V> = map<string, Node<V>>

  /** Lookup by key path: the root for no keys, None when the path runs off the tree. */
  function Get<V>(t: Tree<V>, keys: seq<string>): Option<Node<V>>
    decreases |keys|
  {
    if |keys| == 0 then Some(Branch(t))
    else if keys[0] !in t then None
    else match t[keys[0]]
      case Leaf(_) => if |keys| == 1 then Some(t[keys[0]]) else None
      case Branch(c) => Get(c, keys[1..])
  }

  ghost predicate IsLeafAt<V>(t: Tree<V>, p: seq<string>) {
    Get(t, p).Some? && Get(t, p).value.Leaf?
  }

  /**
   * No level the walk passes through (every key but the last) holds a value.
   * The dictionaries of the source would walk into such a value; the model
   * leaves that case out.
   */
  predicate NoLeafOnPath<V>(t: Tree<V>, keys: seq<string>)
    decreases |keys|
  {
    |keys| <= 1 || (keys[0] in t ==> t[keys[0]].Branch? && NoLeafOnPath(t[keys[0]].children, keys[1..]))
  }

  /** The level the walk moves into under key `k`: the existing one or a new empty one. */
  function Child<V>(t: Tree<V>, k: string): Tree<V>
    requires k in t ==> t[k].Branch?
  {
    if k in t then t[k].children else map[]
  }

  datatype PutResult<V> = Stored(tree: Tree<V>) | Conflict

  /**
   * Store `v` at `keys`, creating missing levels; an empty key path changes
   * nothing; a taken final key, whether it holds a value or a level, is a
   * conflict.
   */
  function Put<V>(t: Tree<V>, keys: seq<string>, v: V): (r: PutResult<V>)
    requires NoLeafOnPath(t, keys)
    ensures r.Conflict? <==> |keys| > 0 && Get(t, keys).Some?
    ensures |keys| == 0 ==> r == Stored(t)
    decreases |keys|
  {
    if |keys| == 0 then Stored(t)
    else if |keys| == 1 then
      if keys[0] in t then Conflict else Stored(t[keys[0] := Leaf(v)])
    else
      match Put(Child(t, keys[0]), keys[1..], v)
      case Conflict => Conflict
      case Stored(c) => Stored(t[keys[0] := Branch(c)])
  }

  /** The message the source attaches to a conflict: the joined key path. */
  function ConflictMessage(keys: seq<string>): string
    requires |keys| > 0
  {
    PyStrings.JoinPath(keys) + " conflicts with another item."
  }

  // ---------------------------------------------------------------------------
  // What a successful Put does to the tree.

  /** After a successful insert the value is found by following `keys`. */
  lemma {:induction false} PutReachable<V>(t: Tree<V>, keys: seq<string>, v: V)
    requires NoLeafOnPath(t, keys) && |keys| > 0
    requires Put(t, keys, v).Stored?
    ensures Get(Put(t, keys, v).tree, keys) == Some(Leaf(v))
    decreases |keys|
  {
    if |keys| > 1 {
      PutReachable(Child(t, keys[0]), keys[1..], v);
    }
  }

  /** Every path that is not a prefix of `keys` looks up the same before and after. */
  lemma {:induction false} PutFrame<V>(t: Tree<V>, keys: seq<string>, v: V, p: seq<string>)
    requires NoLeafOnPath(t, keys)
    requires Put(t, keys, v).Stored?
    requires !(p <= keys)
    ensures Get(Put(t, keys, v).tree, p) == Get(t, p)
    decreases |keys|
  {
    var r := Put(t, keys, v).tree;
    assert |p| > 0;
    if |keys| == 0 {
    } else if p[0] != keys[0] {
      assert p[0] in r <==> p[0] in t;
      assert p[0] in r ==> r[p[0]] == t[p[0]];
    } else if |keys| == 1 {
      assert keys[0] !in t;
    } else {
      assert |p| == 1 ==> p <= keys;
      assert p == [p[0]] + p[1..];
      assert keys == [keys[0]] + keys[1..];
      PutFrame(Child(t, keys[0]), keys[1..], v, p[1..]);
      if keys[0] !in t {
        assert Get(Child(t, keys[0]), p[1..]) == None;
      }
    }
  }

  /** Every level strictly above the stored value is a dictionary afterwards. */
  lemma {:induction false} PutLevels<V>(t: Tree<V>, keys: seq<string>, v: V, n: nat)
    requires NoLeafOnPath(t, keys)
    requires Put(t, keys, v).Stored?
    requires 0 < n < |keys|
    ensures Get(Put(t, keys, v).tree, keys[..n]).Some?
    ensures Get(Put(t, keys, v).tree, keys[..n]).value.Branch?
    decreases |keys|
  {
    var r := Put(t, keys, v).tree;
    var c := Put(Child(t, keys[0]), keys[1..], v).tree;
    assert r[keys[0]] == Branch(c);
    if n > 1 {
      PutLevels(Child(t, keys[0]), keys[1..], v, n - 1);
      assert keys[..n][1..] == keys[1..][..n - 1];
    }
  }

  /** The leaves and the paths present after a successful Put. */
  lemma PutShape<V>(t: Tree<V>, keys: seq<string>, v: V)
    requires NoLeafOnPath(t, keys)
    requires Put(t, keys, v).Stored?
    ensures forall p :: IsLeafAt(Put(t, keys, v).tree, p) ==> p == keys || IsLeafAt(t, p)
    ensures forall p :: |p| > 0 && Get(Put(t, keys, v).tree, p).Some? ==> p <= keys || Get(t, p).Some?
  {
    var r := Put(t, keys, v).tree;
    forall p ensures IsLeafAt(r, p) ==> p == keys || IsLeafAt(t, p) {
      if !(p <= keys) {
        PutFrame(t, keys, v, p);
      } else if p != keys && |p| > 0 {
        assert keys[..|p|] == p;
        PutLevels(t, keys, v, |p|);
      }
    }
    forall p | |p| > 0 && Get(r, p).Some? ensures p <= keys || Get(t, p).Some? {
      if !(p <= keys) {
        PutFrame(t, keys, v, p);
      }
    }
  }

  /** NoLeafOnPath holds when no proper, non-empty prefix of `keys` holds a value. */
  lemma {:induction false} NoLeafOnPathFromPrefixes<V>(t: Tree<V>, keys: seq<string>)
    requires forall n :: 0 < n < |keys| ==> !IsLeafAt(t, keys[..n])
    ensures NoLeafOnPath(t, keys)
    decreases |keys|
  {
    if |keys| > 1 && keys[0] in t {
      assert keys[..1] == [keys[0]];
      assert !IsLeafAt(t, keys[..1]);
      var c := t[keys[0]].children;
      forall n | 0 < n < |keys[1..]| ensures !IsLeafAt(c, keys[1..][..n]) {
        assert !IsLeafAt(t, keys[..n + 1]);
        assert keys[..n + 1][1..] == keys[1..][..n];
      }
      NoLeafOnPathFromPrefixes(c, keys[1..]);
    }
  }

  // ---------------------------------------------------------------------------
  // The walk of the source: down through the levels, then store the value.

  /** One step down the walk: the rest of the path, from the level under the first key. */
  lemma WalkStep<V>(t: Tree<V>, keys: seq<string>)
    requires |keys| > 1 && NoLeafOnPath(t, keys)
    ensures NoLeafOnPath(Child(t, keys[0]), keys[1..])
    ensures Get(t, keys) == Get(Child(t, keys[0]), keys[1..])
  {
  }

  /** One step up: storing under the first key the level updated beneath it. */
  lemma ClimbStep<V>(t: Tree<V>, keys: seq<string>, v: V, c: Tree<V>)
    requires |keys| > 1 && NoLeafOnPath(t, keys)
    requires Put(Child(t, keys[0]), keys[1..], v) == Stored(c)
    ensures Put(t, keys, v) == Stored(t[keys[0] := Branch(c)])
  {
  }

  /**
   * The descent of the walk: every level met on the way down, starting at `t`
   * and moving into (or creating) the child under each key but the last.
   */
  method Descend<V>(t: Tree<V>, keys: seq<string>) returns (levels: seq<Tree<V>>)
    requires |keys| > 0 && NoLeafOnPath(t, keys)
    ensures |levels| == |keys| && levels[0] == t
    ensures forall j :: 0 <= j < |keys| - 1 ==>
      NoLeafOnPath(levels[j], keys[j..]) && levels[j + 1] == Child(levels[j], keys[j])
    ensures Get(t, keys) == Get(levels[|keys| - 1], [keys[|keys| - 1]])
  {
    var last := |keys| - 1;
    levels := [t];
    var branch := t;
    var i := 0;
    while i < last
      invariant 0 <= i <= last
      invariant |levels| == i + 1 && levels[0] == t && levels[i] == branch
      invariant forall j :: 0 <= j < i ==>
        NoLeafOnPath(levels[j], keys[j..]) && levels[j + 1] == Child(levels[j], keys[j])
      invariant NoLeafOnPath(branch, keys[i..])
      invariant Get(t, keys) == Get(branch, keys[i..])
    {
      WalkStep(branch, keys[i..]);
      assert keys[i..][0] == keys[i] && keys[i..][1..] == keys[i + 1..];
      var next := Child(branch, keys[i]);
      var prev := levels;
      levels := levels + [next];
      forall j | 0 <= j < i + 1
        ensures NoLeafOnPath(levels[j], keys[j..]) && levels[j + 1] == Child(levels[j], keys[j])
      {
        if j < i {
          assert levels[j] == prev[j] && levels[j + 1] == prev[j + 1];
        }
      }
      branch := next;
      i := i + 1;
    }
    assert keys[last..] == [keys[last]];
  }

  /**
   * Walk down through every key but the last, remembering each level and
   * creating the missing ones as empty dictionaries, then store `v` under the
   * last key unless it is taken. The levels are values here, so the updated
   * ones are put back in place on the way up.
   */
  method InsertAt<V>(t: Tree<V>, keys: seq<string>, v: V) returns (r: PutResult<V>)
    requires NoLeafOnPath(t, keys)
    ensures r == Put(t, keys, v)
  {
    if |keys| == 0 {
      return Stored(t);
    }
    var last := |keys| - 1;
    var levels := Descend(t, keys);
    var branch := levels[last];
    if keys[last] in branch {
      return Conflict;
    }
    var node := branch[keys[last] := Leaf(v)];
    assert keys[last..] == [keys[last]];
    var j := last;
    while j > 0
      invariant 0 <= j <= last
      invariant Put(levels[j], keys[j..], v) == Stored(node)
    {
      j := j - 1;
      assert keys[j..][0] == keys[j] && keys[j..][1..] == keys[j + 1..];
      ClimbStep(levels[j], keys[j..], v, node);
      node := levels[j][keys[j] := Branch(node)];
    }
    return Stored(node);
  }

  // ---------------------------------------------------------------------------
  // A loader inserts one item per discovered file, in discovery order, and
  // logs a conflict instead of stopping.

  /** One file's contribution: its key path, its value, and what was logged while reading it. */
  datatype Item<V> = Item(keys: seq<string>, value: V, log: seq<string>)

  datatype Loaded<V> = Loaded(tree: Tree<V>, errors: seq<string>)

  /**
   * No item's key path is a proper prefix of a later item's: no walk meets a
   * stored value. (A later path that is a proper prefix of an earlier one
   * finds a dictionary under its last key, which is a conflict.)
   */
  ghost predicate PrefixFree<V>(items: seq<Item<V>>) {
    forall i, j :: 0 <= i < j < |items| ==> !(items[i].keys < items[j].keys)
  }

  /** Every value in `t` sits at the key path of one of the items. */
  ghost predicate LeavesAtKeys<V>(t: Tree<V>, items: seq<Item<V>>) {
    forall p :: IsLeafAt(t, p) ==> exists j :: 0 <= j < |items| && items[j].keys == p
  }

  /** Every non-empty path present in `t` leads towards the key path of one of the items. */
  ghost predicate PathsOnKeys<V>(t: Tree<V>, items: seq<Item<V>>) {
    forall p {:trigger Get(t, p)} :: |p| > 0 && Get(t, p).Some? ==> exists j :: 0 <= j < |items| && p <= items[j].keys
  }

  lemma LeafFree<V>(t: Tree<V>, before: seq<Item<V>>, keys: seq<string>)
    requires LeavesAtKeys(t, before)
    requires forall j :: 0 <= j < |before| ==> !(before[j].keys < keys)
    ensures NoLeafOnPath(t, keys)
  {
    forall n | 0 < n < |keys| ensures !IsLeafAt(t, keys[..n]) {
      assert forall j :: 0 <= j < |before| ==> before[j].keys != keys[..n];
    }
    NoLeafOnPathFromPrefixes(t, keys);
  }

  /** Insert one item: a conflict keeps the tree and logs the item's messages and the conflict. */
  function Step<V>(prev: Loaded<V>, it: Item<V>): Loaded<V>
    requires NoLeafOnPath(prev.tree, it.keys)
  {
    match Put(prev.tree, it.keys, it.value)
    case Conflict => Loaded(prev.tree, prev.errors + it.log + [ConflictMessage(it.keys)])
    case Stored(t) => Loaded(t, prev.errors + it.log)
  }

  /** The items before the last one keep the loaded-tree facts of the whole list. */
  lemma Prefix<V>(items: seq<Item<V>>)
    requires |items| > 0 && PrefixFree(items)
    ensures PrefixFree(items[..|items| - 1])
    ensures forall j :: 0 <= j < |items| - 1 ==> items[..|items| - 1][j] == items[j]
  {
  }

  /**
   * Insert every item into an empty tree, in order. Every value in the result
   * sits at some item's key path, and every level lies on one.
   */
  function InsertAll<V>(items: seq<Item<V>>): (r: Loaded<V>)
    requires PrefixFree(items)
    ensures LeavesAtKeys(r.tree, items)
    ensures PathsOnKeys(r.tree, items)
    decreases |items|
  {
    if |items| == 0 then Loaded(map[], [])
    else
      var n := |items| - 1;
      Prefix(items);
      var prev := InsertAll(items[..n]);
      LeafFree(prev.tree, items[..n], items[n].keys);
      if Put(prev.tree, items[n].keys, items[n].value).Conflict? then Step(prev, items[n])
      else PutShape(prev.tree, items[n].keys, items[n].value); Step(prev, items[n])
  }

  /** Unfolding of InsertAll for a non-empty list: the last item is inserted into the load of the rest. */
  lemma InsertAllLast<V>(items: seq<Item<V>>)
    requires |items| > 0 && PrefixFree(items)
    ensures PrefixFree(items[..|items| - 1])
    ensures NoLeafOnPath(InsertAll(items[..|items| - 1]).tree, items[|items| - 1].keys)
    ensures InsertAll(items) == Step(InsertAll(items[..|items| - 1]), items[|items| - 1])
  {
    var n := |items| - 1;
    Prefix(items);
    LeafFree(InsertAll(items[..n]).tree, items[..n], items[n].keys);
  }

  /**
   * The load of the first `i + 1` items is the load of the first `i` with
   * item `i` inserted next: what a loader's loop does at step `i`.
   */
  lemma InsertAllNext<V>(items: seq<Item<V>>, i: nat)
    requires PrefixFree(items) && i < |items|
    ensures PrefixFree(items[..i]) && PrefixFree(items[..i + 1])
    ensures NoLeafOnPath(InsertAll(items[..i]).tree, items[i].keys)
    ensures InsertAll(items[..i + 1]) == Step(InsertAll(items[..i]), items[i])
  {
    var prefix := items[..i + 1];
    assert forall a :: 0 <= a < |prefix| ==> prefix[a] == items[a];
    assert prefix[..i] == items[..i];
    InsertAllLast(prefix);
  }

  /**
   * The state a loader's loop reaches from `start` after inserting the first
   * `i` items, one step at a time; an item whose path runs through a value is
   * passed over, which never happens for a prefix-free list (LoadsIsInsertAll).
   */
  function Loads<V>(start: Loaded<V>, items: seq<Item<V>>, i: nat): Loaded<V>
    requires i <= |items|
  {
    if i == 0 then start
    else
      var prev := Loads(start, items, i - 1);
      if NoLeafOnPath(prev.tree, items[i - 1].keys) then Step(prev, items[i - 1]) else prev
  }

  /**
   * From an empty tree and a log `earlier`, the loop's state after `i` steps
   * is the load of the first `i` items, its messages after `earlier`.
   */
  lemma {:induction false} LoadsIsInsertAll<V>(items: seq<Item<V>>, i: nat, earlier: seq<string>)
    requires PrefixFree(items) && i <= |items|
    ensures PrefixFree(items[..i])
    ensures Loads(Loaded(map[], earlier), items, i)
      == Loaded(InsertAll(items[..i]).tree, earlier + InsertAll(items[..i]).errors)
  {
    if i == 0 {
      assert PrefixFree(items[..0]);
      assert earlier + [] == earlier;
    } else {
      var n := i - 1;
      LoadsIsInsertAll(items, n, earlier);
      InsertAllNext(items, n);
      var prev := InsertAll(items[..n]);
      var before := Loads(Loaded(map[], earlier), items, n);
      assert before == Loaded(prev.tree, earlier + prev.errors);
      assert NoLeafOnPath(before.tree, items[n].keys);
      StepPrefixed(prev.tree, earlier, prev.errors, items[n]);
      assert Loads(Loaded(map[], earlier), items, i) == Step(before, items[n]);
    }
  }

  /** A loader's step `i` from an empty tree: the item's path is clear of values, so the item is inserted. */
  lemma LoadsNext<V>(items: seq<Item<V>>, i: nat, earlier: seq<string>)
    requires PrefixFree(items) && i < |items|
    ensures NoLeafOnPath(Loads(Loaded(map[], earlier), items, i).tree, items[i].keys)
    ensures Loads(Loaded(map[], earlier), items, i + 1) == Step(Loads(Loaded(map[], earlier), items, i), items[i])
  {
    LoadsIsInsertAll(items, i, earlier);
    InsertAllNext(items, i);
  }

  /** After the last step from an empty tree, everything is loaded. */
  lemma LoadsEnds<V>(items: seq<Item<V>>, earlier: seq<string>)
    requires PrefixFree(items)
    ensures Loads(Loaded(map[], earlier), items, |items|)
      == Loaded(InsertAll(items).tree, earlier + InsertAll(items).errors)
  {
    LoadsIsInsertAll(items, |items|, earlier);
    assert items[..|items|] == items;
  }

  /** Messages logged before an item is inserted come first, whether or not it conflicts. */
  lemma StepLogged<V>(t: Tree<V>, before: seq<string>, it: Item<V>)
    requires NoLeafOnPath(t, it.keys)
    ensures Step(Loaded(t, before + it.log), Item(it.keys, it.value, [])) == Step(Loaded(t, before), it)
  {
    assert before + it.log + [] == before + it.log;
    match Put(t, it.keys, it.value)
    case Stored(_) =>
    case Conflict =>
      var c := [ConflictMessage(it.keys)];
      assert (before + it.log) + [] + c == before + it.log + c;
  }

  /** Messages logged before the load began stay in front of everything the step logs. */
  lemma StepPrefixed<V>(t: Tree<V>, earlier: seq<string>, before: seq<string>, it: Item<V>)
    requires NoLeafOnPath(t, it.keys)
    ensures Step(Loaded(t, earlier + before), it)
      == Loaded(Step(Loaded(t, before), it).tree, earlier + Step(Loaded(t, before), it).errors)
  {
    match Put(t, it.keys, it.value)
    case Stored(_) =>
      assert earlier + before + it.log == earlier + (before + it.log);
    case Conflict =>
      var c := [ConflictMessage(it.keys)];
      assert earlier + before + it.log + c == earlier + (before + it.log + c);
  }

  // ---------------------------------------------------------------------------
  // What a loader's tree and log say about the items.

  /** Item `n`'s key path is an earlier item's, or lies on it. */
  ghost predicate Repeats<V>(items: seq<Item<V>>, n: nat)
    requires n < |items|
  {
    |items[n].keys| > 0 && exists j :: 0 <= j < n && items[n].keys <= items[j].keys
  }

  /** The log expected from the items alone: each item's own log, then a conflict for each repeat. */
  ghost function ExpectedErrors<V>(items: seq<Item<V>>): seq<string>
    decreases |items|
  {
    if |items| == 0 then []
    else
      var n := |items| - 1;
      ExpectedErrors(items[..n]) + items[n].log
        + (if Repeats(items, n) then [ConflictMessage(items[n].keys)] else [])
  }

  /** Every item's key path leads somewhere in the loaded tree. */
  lemma {:induction false} InsertAllReaches<V>(items: seq<Item<V>>, i: nat)
    requires PrefixFree(items)
    requires i < |items|
    ensures Get(InsertAll(items).tree, items[i].keys).Some?
    decreases |items|
  {
    var n := |items| - 1;
    InsertAllLast(items);
    var prev := InsertAll(items[..n]);
    var it := items[n];
    var put := Put(prev.tree, it.keys, it.value);
    if i == n {
      if put.Stored? && |it.keys| > 0 {
        PutReachable(prev.tree, it.keys, it.value);
      }
    } else {
      InsertAllReaches(items[..n], i);
      if put.Stored? {
        PutFrameOrLevel(prev.tree, it.keys, it.value, items[i].keys);
      }
    }
  }

  /** A path present before a successful Put is still present after it. */
  lemma PutFrameOrLevel<V>(t: Tree<V>, keys: seq<string>, v: V, p: seq<string>)
    requires NoLeafOnPath(t, keys)
    requires Put(t, keys, v).Stored?
    requires Get(t, p).Some?
    ensures Get(Put(t, keys, v).tree, p).Some?
  {
    if !(p <= keys) {
      PutFrame(t, keys, v, p);
    } else if |p| < |keys| {
      if |p| > 0 {
        assert keys[..|p|] == p;
        PutLevels(t, keys, v, |p|);
      }
    } else {
      assert p == keys;
    }
  }

  /** An item whose key path lies on no earlier item's finds nothing at its path when it comes. */
  lemma FreshPathAbsent<V>(items: seq<Item<V>>, n: nat)
    requires PrefixFree(items) && n < |items| && |items[n].keys| > 0
    requires forall j :: 0 <= j < n ==> !(items[n].keys <= items[j].keys)
    requires PrefixFree(items[..n])
    ensures Get(InsertAll(items[..n]).tree, items[n].keys).None?
  {
    var before := items[..n];
    forall j | 0 <= j < n ensures !(items[n].keys <= before[j].keys) {
      assert before[j] == items[j];
    }
  }

  /** A value stored at a path that the next item does not pass through stays there. */
  lemma StepKeeps<V>(prev: Loaded<V>, it: Item<V>, p: seq<string>, v: V)
    requires NoLeafOnPath(prev.tree, it.keys)
    requires Get(prev.tree, p) == Some(Leaf(v)) && !(p < it.keys)
    ensures Get(Step(prev, it).tree, p) == Some(Leaf(v))
  {
    if Put(prev.tree, it.keys, it.value).Stored? && p != it.keys {
      PutFrame(prev.tree, it.keys, it.value, p);
    }
  }

  /** An item whose path is free stores its value there. */
  lemma StepStores<V>(prev: Loaded<V>, it: Item<V>)
    requires NoLeafOnPath(prev.tree, it.keys)
    requires |it.keys| > 0 && Get(prev.tree, it.keys).None?
    ensures Get(Step(prev, it).tree, it.keys) == Some(Leaf(it.value))
  {
    PutReachable(prev.tree, it.keys, it.value);
  }

  /**
   * The first item with a given (non-empty) key path wins, when no earlier
   * item's path runs through it: its value is the one found there after the
   * load, whatever comes later.
   */
  lemma {:induction false} InsertAllFirstWins<V>(items: seq<Item<V>>, i: nat)
    requires PrefixFree(items)
    requires i < |items| && |items[i].keys| > 0
    requires forall j :: 0 <= j < i ==> !(items[i].keys <= items[j].keys)
    ensures Get(InsertAll(items).tree, items[i].keys) == Some(Leaf(items[i].value))
    decreases |items|
  {
    var n := |items| - 1;
    InsertAllLast(items);
    if i == n {
      FreshPathAbsent(items, n);
      StepStores(InsertAll(items[..n]), items[n]);
    } else {
      var before := items[..n];
      assert before[i] == items[i];
      assert forall j :: 0 <= j < i ==> before[j] == items[j];
      InsertAllFirstWins(before, i);
      assert !(items[i].keys < items[n].keys);
      StepKeeps(InsertAll(before), items[n], items[i].keys, items[i].value);
    }
  }

  /** The log a Step adds: the item's messages, then the conflict exactly when its path is taken. */
  lemma StepErrors<V>(prev: Loaded<V>, it: Item<V>)
    requires NoLeafOnPath(prev.tree, it.keys)
    ensures Step(prev, it).errors == prev.errors + it.log
      + (if |it.keys| > 0 && Get(prev.tree, it.keys).Some? then [ConflictMessage(it.keys)] else [])
  {
  }

  /** Every prefix of a path present in a tree is present too. */
  lemma {:induction false} GetPrefix<V>(t: Tree<V>, p: seq<string>, q: seq<string>)
    requires Get(t, p).Some? && q <= p
    ensures Get(t, q).Some?
    decreases |q|
  {
    if |q| > 0 {
      assert q[0] == p[0];
      match t[p[0]]
      case Leaf(_) =>
      case Branch(c) =>
        assert q[1..] <= p[1..];
        GetPrefix(c, p[1..], q[1..]);
    }
  }

  /** An item whose key path is, or lies on, an earlier item's finds it taken when it comes. */
  lemma RepeatTaken<V>(items: seq<Item<V>>, n: nat)
    requires n < |items| && PrefixFree(items) && PrefixFree(items[..n])
    requires Repeats(items, n)
    ensures Get(InsertAll(items[..n]).tree, items[n].keys).Some?
  {
    var j :| 0 <= j < n && items[n].keys <= items[j].keys;
    assert items[..n][j] == items[j];
    InsertAllReaches(items[..n], j);
    GetPrefix(InsertAll(items[..n]).tree, items[j].keys, items[n].keys);
  }

  /** An item meets a conflict exactly when its key path is, or lies on, an earlier item's. */
  lemma ConflictIffRepeats<V>(items: seq<Item<V>>, n: nat)
    requires n < |items| && PrefixFree(items) && PrefixFree(items[..n])
    ensures Repeats(items, n) <==> |items[n].keys| > 0 && Get(InsertAll(items[..n]).tree, items[n].keys).Some?
  {
    if Repeats(items, n) {
      RepeatTaken(items, n);
    } else if |items[n].keys| > 0 {
      FreshPathAbsent(items, n);
    }
  }

  /**
   * The loader logs each item's messages and exactly one conflict per item
   * whose key path is, or lies on, an earlier item's.
   */
  lemma {:induction false} InsertAllErrors<V>(items: seq<Item<V>>)
    requires PrefixFree(items)
    ensures InsertAll(items).errors == ExpectedErrors(items)
    decreases |items|
  {
    if |items| > 0 {
      var n := |items| - 1;
      InsertAllLast(items);
      InsertAllErrors(items[..n]);
      StepErrors(InsertAll(items[..n]), items[n]);
      ConflictIffRepeats(items, n);
    }
  }
}
