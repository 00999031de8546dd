/**
 * The query engine of `FileBrowser`: `dosearch`, the per-value loop of
 * `searchMany`, and `flattenIt`. Each loop of the source is a method that
 * is proved against a specification function; the lemmas state what the
 * functions promise.
 */
module Query {
  import opened Outcomes
  import opened Entries

  /** The value that matches an entry whatever its attribute holds. */
  const Wildcard := "*"

  /**
   * `isset($e[$key]) && ($e[$key] === $value || $value === '*')`: the key is
   * set and holds exactly the string `value`, or `value` is the wildcard.
   */
  predicate Matches(key: string, value: string, attrs: Attrs)
  {
    key in attrs && (attrs[key] == Str(value) || value == Wildcard)
  }

  // ---------------------------------------------------------------------
  // Search
  // ---------------------------------------------------------------------

  /**
   * What `dosearch` returns: a non-directory entry is kept when it matches;
   * every directory is kept, with its contents replaced by their search.
   */
  function Search(key: string, value: string, es: seq<Entry>): (r: seq<Entry>)
    requires Nested(es)
    ensures |r| <= |es|
    ensures Nested(r)
  {
    if es == [] then []
    else
      NestedInit(es);
      var e := es[|es| - 1];
      var hit :=
        if e.Dir? then [Dir(e.attrs, Search(key, value, e.contents))]
        else if Matches(key, value, e.attrs) then [e]
        else [];
      var prior := Search(key, value, es[..|es| - 1]);
      NestedAppend(prior, hit);
      prior + hit
  }

  /** A single non-directory entry survives exactly when it matches. */
  lemma SearchLeaf(key: string, value: string, a: Attrs)
    ensures Search(key, value, [Leaf(a)]) == if Matches(key, value, a) then [Leaf(a)] else []
  {
    assert [Leaf(a)][..0] == [];
  }

  /**
   * A directory is always kept, and its contents become the search of its
   * contents, even when nothing below it matches.
   */
  lemma SearchDir(key: string, value: string, a: Attrs, c: seq<Entry>)
    requires Nested(c)
    ensures Nested([Dir(a, c)])
    ensures Search(key, value, [Dir(a, c)]) == [Dir(a, Search(key, value, c))]
  {
    assert [Dir(a, c)][..0] == [];
  }

  /** Searching one entry more adds that entry's own search at the end. */
  lemma SearchSnoc(key: string, value: string, es: seq<Entry>, e: Entry)
    requires Nested(es) && Nested([e])
    ensures Nested(es + [e])
    ensures Search(key, value, es + [e]) == Search(key, value, es) + Search(key, value, [e])
  {
    NestedAppend(es, [e]);
    var s := es + [e];
    assert s[..|s| - 1] == es && s[|s| - 1] == e;
    assert [e][..0] == [];
  }

  /** Searching a concatenation is concatenating the searches: the order of entries is kept. */
  lemma {:induction false} SearchAppend(key: string, value: string, a: seq<Entry>, b: seq<Entry>)
    requires Nested(a) && Nested(b)
    ensures Nested(a + b)
    ensures Search(key, value, a + b) == Search(key, value, a) + Search(key, value, b)
    decreases |b|
  {
    NestedAppend(a, b);
    if b == [] {
      assert a + b == a;
    } else {
      var b', last := b[..|b| - 1], b[|b| - 1];
      NestedInit(b);
      assert b == b' + [last];
      assert a + b == (a + b') + [last];
      NestedAppend(a, b');
      SearchSnoc(key, value, a + b', last);
      SearchSnoc(key, value, b', last);
      SearchAppend(key, value, a, b');
    }
  }

  /**
   * A non-directory entry appears at the top level of the result exactly
   * when it appears in the input and matches.
   */
  lemma {:induction false} SearchKeepsLeaf(key: string, value: string, es: seq<Entry>, a: Attrs)
    requires Nested(es)
    ensures Leaf(a) in Search(key, value, es) <==> Leaf(a) in es && Matches(key, value, a)
    decreases |es|
  {
    if es != [] {
      NestedInit(es);
      var init := es[..|es| - 1];
      assert es == init + [es[|es| - 1]];
      SearchKeepsLeaf(key, value, init, a);
    }
  }

  /**
   * Every directory of the input appears in the result with its contents
   * searched, and every directory of the result arises that way.
   */
  lemma {:induction false} SearchKeepsDirs(key: string, value: string, es: seq<Entry>)
    requires Nested(es)
    ensures forall i | 0 <= i < |es| && es[i].Dir? ::
      Dir(es[i].attrs, Search(key, value, es[i].contents)) in Search(key, value, es)
    ensures forall e | e in Search(key, value, es) && e.Dir? ::
      exists c :: Dir(e.attrs, c) in es && Nested(c) && e.contents == Search(key, value, c)
    decreases |es|
  {
    if es != [] {
      NestedInit(es);
      var init := es[..|es| - 1];
      var last := es[|es| - 1];
      assert es == init + [last];
      SearchKeepsDirs(key, value, init);
      forall i | 0 <= i < |es| && es[i].Dir?
        ensures Dir(es[i].attrs, Search(key, value, es[i].contents)) in Search(key, value, es)
      {
        if i < |init| { assert es[i] == init[i]; }
      }
      forall e | e in Search(key, value, es) && e.Dir?
        ensures exists c :: Dir(e.attrs, c) in es && Nested(c) && e.contents == Search(key, value, c)
      {
        if e in Search(key, value, init) {
          var c :| Dir(e.attrs, c) in init && Nested(c) && e.contents == Search(key, value, c);
          assert Dir(e.attrs, c) in es;
        } else {
          assert last == Dir(e.attrs, last.contents);
        }
      }
    }
  }

  /** Searching again with the same key and value changes nothing. */
  lemma {:induction false} SearchIdempotent(key: string, value: string, es: seq<Entry>)
    requires Nested(es)
    ensures Search(key, value, Search(key, value, es)) == Search(key, value, es)
    decreases es
  {
    if es != [] {
      NestedInit(es);
      var init := es[..|es| - 1];
      var e := es[|es| - 1];
      var prior := Search(key, value, init);
      var hit := Search(key, value, [e]);
      assert es == init + [e];
      SearchAppend(key, value, init, [e]);
      SearchAppend(key, value, prior, hit);
      SearchIdempotent(key, value, init);
      if e.Dir? {
        SearchDir(key, value, e.attrs, e.contents);
        SearchIdempotent(key, value, e.contents);
        SearchDir(key, value, e.attrs, Search(key, value, e.contents));
      } else {
        SearchLeaf(key, value, e.attrs);
      }
    }
  }

  /** For a single entry, two chained searches commute once they commute on a directory's contents. */
  lemma SearchCommutesEntry(k1: string, v1: string, k2: string, v2: string, e: Entry)
    requires Nested([e])
    requires e.Dir? ==>
      && Nested(e.contents)
      && Search(k1, v1, Search(k2, v2, e.contents)) == Search(k2, v2, Search(k1, v1, e.contents))
    ensures Search(k1, v1, Search(k2, v2, [e])) == Search(k2, v2, Search(k1, v1, [e]))
  {
    if e.Dir? {
      var a, c := e.attrs, e.contents;
      SearchDir(k1, v1, a, c);
      SearchDir(k2, v2, a, c);
      SearchDir(k1, v1, a, Search(k2, v2, c));
      SearchDir(k2, v2, a, Search(k1, v1, c));
    } else {
      SearchLeaf(k1, v1, e.attrs);
      SearchLeaf(k2, v2, e.attrs);
    }
  }

  /** Chained searches that commute on two sequences commute on their concatenation. */
  lemma SearchCommutesAppend(k1: string, v1: string, k2: string, v2: string, a: seq<Entry>, b: seq<Entry>)
    requires Nested(a) && Nested(b)
    requires Search(k1, v1, Search(k2, v2, a)) == Search(k2, v2, Search(k1, v1, a))
    requires Search(k1, v1, Search(k2, v2, b)) == Search(k2, v2, Search(k1, v1, b))
    ensures Nested(a + b)
    ensures Search(k1, v1, Search(k2, v2, a + b)) == Search(k2, v2, Search(k1, v1, a + b))
  {
    SearchAppend(k1, v1, a, b);
    SearchAppend(k2, v2, a, b);
    SearchAppend(k1, v1, Search(k2, v2, a), Search(k2, v2, b));
    SearchAppend(k2, v2, Search(k1, v1, a), Search(k1, v1, b));
  }

  /** Two chained searches give the same tree in either order. */
  lemma {:induction false} SearchCommutes(k1: string, v1: string, k2: string, v2: string, es: seq<Entry>)
    requires Nested(es)
    ensures Search(k1, v1, Search(k2, v2, es)) == Search(k2, v2, Search(k1, v1, es))
    decreases es
  {
    if es != [] {
      NestedInit(es);
      var init := es[..|es| - 1];
      var e := es[|es| - 1];
      assert es == init + [e];
      NestedAppend(init, [e]);
      SearchCommutes(k1, v1, k2, v2, init);
      if e.Dir? {
        SearchCommutes(k1, v1, k2, v2, e.contents);
      }
      SearchCommutesEntry(k1, v1, k2, v2, e);
      SearchCommutesAppend(k1, v1, k2, v2, init, [e]);
    }
  }

  /**
   * `dosearch($key, $value, $recursive, $searcharray)`. The condition
   * `$recursive = true` is an assignment, so every directory is searched
   * whatever `recursive` says, and `isset` of the resulting array always
   * holds, so every directory is kept. A directory whose `contents` is null
   * makes the recursive call raise a TypeError.
   */
  method DoSearch(key: string, value: string, recursive: bool, searcharray: seq<Entry>)
    returns (r: Result<seq<Entry>>)
    ensures r.Ok? <==> Nested(searcharray)
    ensures r.Ok? ==> r.value == Search(key, value, searcharray)
    decreases searcharray
  {
    var found := [];
    var i := 0;
    while i < |searcharray|
      invariant 0 <= i <= |searcharray|
      invariant Nested(searcharray[..i])
      invariant found == Search(key, value, searcharray[..i])
      decreases |searcharray| - i
    {
      var current := searcharray[i];
      assert searcharray[..i + 1] == searcharray[..i] + [current];
      if IsDirectory(current) {
        if current.ClearedDir? {
          return TypeError;
        }
        var sub := DoSearch(key, value, true, current.contents);
        if sub.TypeError? {
          return TypeError;
        }
        NestedAppend(searcharray[..i], [current]);
        found := found + [Dir(current.attrs, sub.value)];
      } else {
        NestedAppend(searcharray[..i], [current]);
        if key in current.attrs {
          if current.attrs[key] == Str(value) || value == Wildcard {
            found := found + [current];
          }
        }
      }
      i := i + 1;
    }
    assert searcharray[..i] == searcharray;
    r := Ok(found);
  }

  // ---------------------------------------------------------------------
  // Searching for many values
  // ---------------------------------------------------------------------

  /** The hits of `searchMany`: one search per value, in order, concatenated without dedup. */
  function SearchAll(key: string, values: seq<string>, es: seq<Entry>): (r: seq<Entry>)
    requires Nested(es)
    ensures Nested(r)
  {
    if values == [] then []
    else
      NestedAppend(Search(key, values[0], es), SearchAll(key, values[1..], es));
      Search(key, values[0], es) + SearchAll(key, values[1..], es)
  }

  /** The total number of hits of searching `es` for each of `values`, counted from the last value back. */
  function HitCount(key: string, values: seq<string>, es: seq<Entry>): nat
    requires Nested(es)
  {
    if values == [] then 0
    else HitCount(key, values[..|values| - 1], es) + |Search(key, values[|values| - 1], es)|
  }

  /** Searching for one value is `dosearch` for that value. */
  lemma SearchAllSingleton(key: string, value: string, es: seq<Entry>)
    requires Nested(es)
    ensures SearchAll(key, [value], es) == Search(key, value, es)
  {
    assert [value][1..] == [];
  }

  /** The hits for a non-empty list of values: those of the first value, then those of the rest. */
  lemma SearchAllCons(key: string, values: seq<string>, es: seq<Entry>)
    requires Nested(es) && values != []
    ensures SearchAll(key, values, es) == Search(key, values[0], es) + SearchAll(key, values[1..], es)
  {
  }

  /** Hits for `vs + ws` are the hits for `vs` followed by those for `ws`. */
  lemma {:induction false} SearchAllAppend(key: string, vs: seq<string>, ws: seq<string>, es: seq<Entry>)
    requires Nested(es)
    ensures SearchAll(key, vs + ws, es) == SearchAll(key, vs, es) + SearchAll(key, ws, es)
    decreases |vs|
  {
    if vs == [] {
      assert vs + ws == ws;
    } else {
      var all := vs + ws;
      assert all[0] == vs[0] && all[1..] == vs[1..] + ws;
      SearchAllCons(key, all, es);
      SearchAllCons(key, vs, es);
      SearchAllAppend(key, vs[1..], ws, es);
      var f := Search(key, vs[0], es);
      assert f + (SearchAll(key, vs[1..], es) + SearchAll(key, ws, es))
          == (f + SearchAll(key, vs[1..], es)) + SearchAll(key, ws, es);
    }
  }

  /** One more value adds its hits at the end: the step of the `foreach` over the values. */
  lemma SearchAllPrefix(key: string, values: seq<string>, i: nat, es: seq<Entry>)
    requires Nested(es) && i < |values|
    ensures SearchAll(key, values[..i + 1], es) == SearchAll(key, values[..i], es) + Search(key, values[i], es)
  {
    assert values[..i + 1] == values[..i] + [values[i]];
    SearchAllAppend(key, values[..i], [values[i]], es);
    SearchAllSingleton(key, values[i], es);
  }

  /** No dedup: the result is exactly as long as all the individual searches together. */
  lemma {:induction false} SearchAllLength(key: string, values: seq<string>, es: seq<Entry>)
    requires Nested(es)
    ensures |SearchAll(key, values, es)| == HitCount(key, values, es)
    decreases |values|
  {
    if values != [] {
      var init, last := values[..|values| - 1], values[|values| - 1];
      assert values == init + [last];
      SearchAllAppend(key, init, [last], es);
      SearchAllSingleton(key, last, es);
      SearchAllLength(key, init, es);
    }
  }

  /** Nothing is found for the values exactly when nothing is found for any single one of them. */
  lemma {:induction false} SearchAllEmpty(key: string, values: seq<string>, es: seq<Entry>)
    requires Nested(es)
    ensures SearchAll(key, values, es) == [] <==> forall i | 0 <= i < |values| :: Search(key, values[i], es) == []
    decreases |values|
  {
    if values != [] {
      var first, rest := Search(key, values[0], es), SearchAll(key, values[1..], es);
      SearchAllCons(key, values, es);
      SearchAllEmpty(key, values[1..], es);
      if first == [] && rest == [] {
        forall i | 0 <= i < |values| ensures Search(key, values[i], es) == [] {
          if i > 0 { assert values[i] == values[1..][i - 1]; }
        }
      }
      if first + rest == [] {
        assert |first + rest| == |first| + |rest|;
        assert first == [] && rest == [];
      }
      if forall i | 0 <= i < |values| :: Search(key, values[i], es) == [] {
        forall i | 0 <= i < |values[1..]| ensures Search(key, values[1..][i], es) == [] {
          assert values[1..][i] == values[i + 1];
        }
        assert first == [];
      }
    }
  }

  /** Searching twice for a value repeats its hits. */
  lemma SearchAllRepeats(key: string, value: string, es: seq<Entry>)
    requires Nested(es)
    ensures SearchAll(key, [value, value], es) == Search(key, value, es) + Search(key, value, es)
  {
    SearchAllSingleton(key, value, es);
    assert [value, value][..1] == [value];
  }

  // ---------------------------------------------------------------------
  // Flatten
  // ---------------------------------------------------------------------

  /**
   * What `flattenIt` returns: depth first, each directory's flattened
   * contents, followed, when `includeDirs` holds, by the directory itself
   * with its contents set to null.
   */
  function Flatten(includeDirs: bool, es: seq<Entry>): (r: seq<Entry>)
    requires Nested(es)
    ensures forall i | 0 <= i < |r| :: !r[i].Dir?
    ensures !includeDirs ==> forall i | 0 <= i < |r| :: r[i].Leaf?
  {
    if es == [] then []
    else
      NestedInit(es);
      var e := es[|es| - 1];
      var prior := Flatten(includeDirs, es[..|es| - 1]);
      if e.Dir? then
        prior + Flatten(includeDirs, e.contents) + (if includeDirs then [ClearedDir(e.attrs)] else [])
      else prior + [e]
  }

  lemma {:induction false} FlattenAppend(includeDirs: bool, a: seq<Entry>, b: seq<Entry>)
    requires Nested(a) && Nested(b)
    ensures Nested(a + b)
    ensures Flatten(includeDirs, a + b) == Flatten(includeDirs, a) + Flatten(includeDirs, b)
    decreases |b|
  {
    NestedAppend(a, b);
    if b == [] {
      assert a + b == a;
    } else {
      var ab := a + b;
      var b' := b[..|b| - 1];
      assert ab[..|ab| - 1] == a + b';
      assert ab[|ab| - 1] == b[|b| - 1];
      NestedInit(b);
      FlattenAppend(includeDirs, a, b');
    }
  }

  /** A directory is emitted after all its descendants, with no contents. */
  lemma FlattenDir(includeDirs: bool, a: Attrs, c: seq<Entry>)
    requires Nested(c)
    ensures Nested([Dir(a, c)])
    ensures Flatten(includeDirs, [Dir(a, c)])
         == Flatten(includeDirs, c) + (if includeDirs then [ClearedDir(a)] else [])
  {
    assert [Dir(a, c)][..0] == [];
  }

  lemma FlattenLeaf(includeDirs: bool, a: Attrs)
    ensures Flatten(includeDirs, [Leaf(a)]) == [Leaf(a)]
  {
    assert [Leaf(a)][..0] == [];
  }

  /** The non-directory entries of a flat sequence, in order. */
  function Leaves(s: seq<Entry>): (r: seq<Entry>)
    ensures |r| <= |s|
    ensures forall i | 0 <= i < |r| :: r[i].Leaf?
  {
    if s == [] then []
    else Leaves(s[..|s| - 1]) + (if s[|s| - 1].Leaf? then [s[|s| - 1]] else [])
  }

  lemma {:induction false} LeavesAppend(a: seq<Entry>, b: seq<Entry>)
    ensures Leaves(a + b) == Leaves(a) + Leaves(b)
    decreases |b|
  {
    if b == [] {
      assert a + b == a;
    } else {
      var ab := a + b;
      assert ab[..|ab| - 1] == a + b[..|b| - 1];
      assert ab[|ab| - 1] == b[|b| - 1];
      LeavesAppend(a, b[..|b| - 1]);
    }
  }

  /** Removing the directories from `flattenIt(true, T)` gives exactly `flattenIt(false, T)`. */
  lemma {:induction false} LeavesOfFlatten(es: seq<Entry>)
    requires Nested(es)
    ensures Leaves(Flatten(true, es)) == Flatten(false, es)
    decreases es
  {
    if es != [] {
      NestedInit(es);
      var init := es[..|es| - 1];
      var e := es[|es| - 1];
      LeavesOfFlatten(init);
      if e.Dir? {
        LeavesOfFlatten(e.contents);
        LeavesAppend(Flatten(true, init) + Flatten(true, e.contents), [ClearedDir(e.attrs)]);
        LeavesAppend(Flatten(true, init), Flatten(true, e.contents));
        assert Leaves([ClearedDir(e.attrs)]) == [] by {
          assert [ClearedDir(e.attrs)][..0] == [];
        }
      } else {
        LeavesAppend(Flatten(true, init), [e]);
        assert Leaves([e]) == [e] by {
          assert [e][..0] == [];
        }
      }
    }
  }

  /** Every non-directory descendant of the tree, counted with multiplicity. */
  function LeafBag(es: seq<Entry>): multiset<Entry>
  {
    if es == [] then multiset{}
    else
      match es[0]
      case Leaf(_) => multiset{es[0]} + LeafBag(es[1..])
      case Dir(_, c) => LeafBag(c) + LeafBag(es[1..])
      case ClearedDir(_) => LeafBag(es[1..])
  }

  /** The number of directories anywhere in the tree. */
  function DirCount(es: seq<Entry>): nat
  {
    if es == [] then 0
    else
      match es[0]
      case Leaf(_) => DirCount(es[1..])
      case Dir(_, c) => 1 + DirCount(c) + DirCount(es[1..])
      case ClearedDir(_) => 1 + DirCount(es[1..])
  }

  lemma {:induction false} LeafBagAppend(a: seq<Entry>, b: seq<Entry>)
    ensures LeafBag(a + b) == LeafBag(a) + LeafBag(b)
    ensures DirCount(a + b) == DirCount(a) + DirCount(b)
    decreases |a|
  {
    if a == [] {
      assert a + b == b;
    } else {
      assert (a + b)[0] == a[0];
      assert (a + b)[1..] == a[1..] + b;
      LeafBagAppend(a[1..], b);
    }
  }

  /**
   * `flattenIt(false, T)` holds every non-directory descendant of T exactly
   * as often as T does, and `flattenIt(true, T)` adds one entry per directory.
   */
  lemma {:induction false} FlattenContents(es: seq<Entry>)
    requires Nested(es)
    ensures multiset(Flatten(false, es)) == LeafBag(es)
    ensures |Flatten(true, es)| == |Flatten(false, es)| + DirCount(es)
    decreases es
  {
    if es != [] {
      NestedInit(es);
      var init := es[..|es| - 1];
      var e := es[|es| - 1];
      assert es == init + [e];
      LeafBagAppend(init, [e]);
      assert [e][1..] == [];
      FlattenContents(init);
      if e.Dir? {
        FlattenContents(e.contents);
      }
    }
  }

  /** A flattened sequence can be queried again exactly when it holds no directory. */
  lemma FlattenNested(includeDirs: bool, es: seq<Entry>)
    requires Nested(es)
    ensures Nested(Flatten(includeDirs, es)) <==> !includeDirs || DirCount(es) == 0
  {
    var r := Flatten(includeDirs, es);
    FlattenContents(es);
    LeavesOfFlatten(es);
    if includeDirs {
      if DirCount(es) == 0 {
        assert |r| == |Flatten(false, es)|;
        LeavesAllOf(r);
      } else {
        assert |Leaves(r)| < |r|;
        var i := NonLeafIndex(r);
        assert r[i].ClearedDir?;
      }
    }
  }

  /** A flat sequence whose non-directory entries are all of it holds only non-directory entries. */
  lemma {:induction false} LeavesAllOf(s: seq<Entry>)
    requires |Leaves(s)| == |s|
    ensures forall i | 0 <= i < |s| :: s[i].Leaf?
    decreases |s|
  {
    if s != [] {
      var init := s[..|s| - 1];
      assert |Leaves(init)| <= |init|;
      LeavesAllOf(init);
      forall i | 0 <= i < |s| ensures s[i].Leaf? {
        if i < |init| { assert s[i] == init[i]; }
      }
    }
  }

  /** The index of an entry that is not a leaf, in a sequence that has one. */
  lemma {:induction false} NonLeafIndex(s: seq<Entry>) returns (i: nat)
    requires |Leaves(s)| < |s|
    ensures i < |s| && !s[i].Leaf?
    decreases |s|
  {
    var init := s[..|s| - 1];
    if s[|s| - 1].Leaf? {
      i := NonLeafIndex(init);
    } else {
      i := |s| - 1;
    }
  }

  /** A sequence without directories flattens to itself. */
  lemma {:induction false} FlattenFlat(includeDirs: bool, s: seq<Entry>)
    requires forall i | 0 <= i < |s| :: s[i].Leaf?
    ensures Nested(s) && Flatten(includeDirs, s) == s
    decreases |s|
  {
    if s != [] {
      var init := s[..|s| - 1];
      FlattenFlat(includeDirs, init);
    }
  }

  /** Flattening `flattenIt(false, T)` again changes nothing. */
  lemma FlattenIdempotent(es: seq<Entry>)
    requires Nested(es)
    ensures Nested(Flatten(false, es))
    ensures Flatten(false, Flatten(false, es)) == Flatten(false, es)
  {
    FlattenFlat(false, Flatten(false, es));
  }

  /**
   * Because `dosearch` keeps every directory, flattening a searched tree
   * gives the search of the flattened tree.
   */
  lemma {:induction false} FlattenOfSearch(key: string, value: string, es: seq<Entry>)
    requires Nested(es)
    ensures Flatten(false, Search(key, value, es)) == Search(key, value, Flatten(false, es))
    decreases es
  {
    if es != [] {
      NestedInit(es);
      var init := es[..|es| - 1];
      var e := es[|es| - 1];
      var prior := Search(key, value, init);
      var hit := if e.Dir? then [Dir(e.attrs, Search(key, value, e.contents))]
                 else if Matches(key, value, e.attrs) then [e] else [];
      assert Search(key, value, es) == prior + hit;
      NestedAppend(prior, hit);
      FlattenAppend(false, prior, hit);
      FlattenOfSearch(key, value, init);
      FlattenFlat(false, Flatten(false, init));
      if e.Dir? {
        FlattenOfSearch(key, value, e.contents);
        FlattenDir(false, e.attrs, Search(key, value, e.contents));
        FlattenFlat(false, Flatten(false, e.contents));
        assert Flatten(false, es) == Flatten(false, init) + Flatten(false, e.contents);
        SearchAppend(key, value, Flatten(false, init), Flatten(false, e.contents));
      } else {
        FlattenFlat(false, [e]);
        SearchAppend(key, value, Flatten(false, init), [e]);
        SearchLeaf(key, value, e.attrs);
        if Matches(key, value, e.attrs) { FlattenLeaf(false, e.attrs); }
      }
    }
  }

  /**
   * `flattenIt($includedirs, $toflatten)`. The `contents` emitted with a
   * directory is null; a directory whose `contents` is already null makes
   * the recursive call raise a TypeError.
   */
  method FlattenIt(includeDirs: bool, toflatten: seq<Entry>) returns (r: Result<seq<Entry>>)
    ensures r.Ok? <==> Nested(toflatten)
    ensures r.Ok? ==> r.value == Flatten(includeDirs, toflatten)
    decreases toflatten
  {
    var flattened := [];
    var i := 0;
    while i < |toflatten|
      invariant 0 <= i <= |toflatten|
      invariant Nested(toflatten[..i])
      invariant flattened == Flatten(includeDirs, toflatten[..i])
      decreases |toflatten| - i
    {
      var item := toflatten[i];
      assert toflatten[..i + 1] == toflatten[..i] + [item];
      NestedAppend(toflatten[..i], [item]);
      if IsDirectory(item) {
        if item.ClearedDir? {
          return TypeError;
        }
        var flat := FlattenIt(includeDirs, item.contents);
        if flat.TypeError? {
          return TypeError;
        }
        flattened := PushAll(flattened, flat.value);
        if includeDirs {
          flattened := flattened + [ClearedDir(item.attrs)];
        }
      } else {
        flattened := flattened + [item];
      }
      i := i + 1;
    }
    assert toflatten[..i] == toflatten;
    r := Ok(flattened);
  }

  /** The `foreach ... array_push` loop: appends `items` to `acc` one by one. */
  method PushAll(acc: seq<Entry>, items: seq<Entry>) returns (r: seq<Entry>)
    ensures r == acc + items
  {
    r := acc;
    var j := 0;
    while j < |items|
      invariant 0 <= j <= |items|
      invariant r == acc + items[..j]
    {
      r := r + [items[j]];
      j := j + 1;
    }
    assert items[..j] == items;
  }
}
