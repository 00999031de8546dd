/**
 * A small tree: the root holds a file `a`, a link `l` and a directory `s`,
 * which holds a file `b`; the two files have the extension `txt`, the link
 * has none. The link is a leaf: the builder never descends into links.
 */
module Scenario {
  import opened Entries
  import Query

  const FileType := "file_type"

  function Sample(a: Attrs, l: Attrs, s: Attrs, b: Attrs): (t: seq<Entry>)
    ensures Nested(t)
  {
    assert Nested([Leaf(b)]);
    [Leaf(a), Leaf(l), Dir(s, [Leaf(b)])]
  }

  /** The two entries of the root before `s` are leaves, which flattening keeps as they are. */
  lemma RootLeaves(d: bool, a: Attrs, l: Attrs)
    ensures Nested([Leaf(a), Leaf(l)])
    ensures Query.Flatten(d, [Leaf(a), Leaf(l)]) == [Leaf(a), Leaf(l)]
  {
    Query.FlattenLeaf(d, a);
    Query.FlattenLeaf(d, l);
    assert [Leaf(a), Leaf(l)] == [Leaf(a)] + [Leaf(l)];
    Query.FlattenAppend(d, [Leaf(a)], [Leaf(l)]);
  }

  /**
   * Flattening without directories gives the three non-directory entries
   * in order, the link among them; with directories `s` follows `b`.
   */
  lemma SampleFlatten(d: bool, a: Attrs, l: Attrs, s: Attrs, b: Attrs)
    ensures Query.Flatten(d, Sample(a, l, s, b)) == [Leaf(a), Leaf(l), Leaf(b)] + (if d then [ClearedDir(s)] else [])
  {
    var files, ds := [Leaf(a), Leaf(l)], [Dir(s, [Leaf(b)])];
    assert Sample(a, l, s, b) == files + ds;
    RootLeaves(d, a, l);
    Query.FlattenLeaf(d, b);
    Query.FlattenDir(d, s, [Leaf(b)]);
    Query.FlattenAppend(d, files, ds);
    if d {
      assert Query.Flatten(d, ds) == [Leaf(b), ClearedDir(s)];
    } else {
      assert Query.Flatten(d, ds) == [Leaf(b)];
    }
  }

  /**
   * Searching the extension `txt` keeps `a` and `s` holding `b`, and drops
   * the link; searching for `txt` twice repeats those hits.
   */
  lemma SampleSearch(a: Attrs, l: Attrs, s: Attrs, b: Attrs)
    requires Has(a, FileType, Str("txt")) && Has(b, FileType, Str("txt")) && Has(l, FileType, Str(""))
    ensures Query.Search(FileType, "txt", Sample(a, l, s, b)) == [Leaf(a), Dir(s, [Leaf(b)])]
    ensures Query.SearchAll(FileType, ["txt", "txt"], Sample(a, l, s, b))
         == [Leaf(a), Dir(s, [Leaf(b)]), Leaf(a), Dir(s, [Leaf(b)])]
  {
    var t := Sample(a, l, s, b);
    assert t == [Leaf(a)] + [Leaf(l)] + [Dir(s, [Leaf(b)])];
    assert Str("") != Str("txt");
    Query.SearchLeaf(FileType, "txt", a);
    Query.SearchLeaf(FileType, "txt", l);
    Query.SearchLeaf(FileType, "txt", b);
    Query.SearchDir(FileType, "txt", s, [Leaf(b)]);
    Query.SearchAppend(FileType, "txt", [Leaf(a)], [Leaf(l)]);
    Query.SearchAppend(FileType, "txt", [Leaf(a)] + [Leaf(l)], [Dir(s, [Leaf(b)])]);
    Query.SearchAllRepeats(FileType, "txt", t);
  }
}
