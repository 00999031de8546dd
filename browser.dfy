/**
 * The browser object: `_files`, the tree built once at construction, and
 * `files`, the working view that each query replaces and that `get` hands
 * out and clears. While the working view is null, queries start from the
 * original tree.
 */
module Browser {
  import opened Outcomes
  import opened Paths
  import opened FileSystem
  import opened Entries
  import opened FileEntry
  import Query
  import Builder

  class FileBrowser {
    /** `$this->basepath`: the path the tree is built from. */
    var basepath: string
    /** `$this->files`: the working view, `None` while it is null. */
    var files: Option<seq<Entry>>
    /** `$this->_files`: the tree as built. */
    var original: seq<Entry>
    /** `$this->file_index`: the list the last completed `buildFiles` call built. */
    var fileIndex: seq<Entry>

    /** What `getFiles` hands out: the working view, or the original while there is none. */
    function View(): seq<Entry>
      reads this
    {
      if files.Some? then files.value else original
    }

    /**
     * `new FileBrowser($path)` without the threaded indexer: builds the tree
     * of `path` and starts with no working view.
     */
    constructor (fs: Fs, path: string)
      requires Wf(fs) && Builder.Tree(fs, path).Ok?
      ensures basepath == path
      ensures original == Builder.Tree(fs, path).value && fileIndex == original
      ensures files.None? && View() == original
      ensures Nested(original)
    {
      basepath := path;
      new;
      var ok, built := BuildFiles(fs, basepath);
      original := built;
      Reset();
      Builder.TreeNested(fs, path);
    }

    /**
     * `buildFiles($path)`: lists `path`, and for each name other than `.`
     * and `..` describes the joined child path, descending first into the
     * children it finds to be directories. `ok` is false where PHP raises a
     * TypeError because some directory could not be listed.
     */
    method BuildFiles(fs: Fs, path: string) returns (ok: bool, builtPath: seq<Entry>)
      requires Wf(fs)
      modifies this`fileIndex
      ensures ok <==> Builder.Tree(fs, path).Ok?
      ensures ok ==> builtPath == Builder.Tree(fs, path).value && fileIndex == builtPath
      decreases Builder.Deeper(fs, path), 1
    {
      builtPath := [];
      var dir := RTrimSlash(path);
      RTrimSlashIdempotent(path);
      assert Builder.Deeper(fs, dir) == Builder.Deeper(fs, path);
      var scanned := ScanDir(fs, dir);
      if scanned.None? {
        // `array_diff` refuses the `false` that `scandir` returns.
        return false, [];
      }
      var contents := Builder.WithoutDots(scanned.value);
      assert Builder.Children(fs, dir) == Some(contents);
      var i := 0;
      while i < |contents|
        invariant 0 <= i <= |contents|
        invariant Builder.Build(fs, dir, contents[..i]) == Ok(builtPath)
      {
        var childOk, entry := BuildChild(fs, dir, contents[i]);
        if !childOk {
          Builder.BuildFails(fs, dir, contents, i);
          return false, [];
        }
        Builder.BuildStep(fs, dir, contents, i, builtPath, entry);
        builtPath := builtPath + [entry];
        i := i + 1;
      }
      assert contents[..i] == contents;
      fileIndex := builtPath;
      ok := true;
    }

    /**
     * One pass of the `buildFiles` loop: describes the child `name` of `dir`
     * and, when it is a directory, builds the tree below it.
     */
    method BuildChild(fs: Fs, dir: string, name: string) returns (ok: bool, entry: Entry)
      requires Wf(fs) && dir in fs.listing && RTrimSlash(dir) == dir && ValidName(name)
      modifies this`fileIndex
      ensures ok <==> Builder.Child(fs, dir, name).Ok?
      ensures ok ==> Builder.Child(fs, dir, name) == Ok(entry)
      decreases Builder.Deeper(fs, dir), 0
    {
      var fullPath := RTrimSlash(dir) + "/" + Basename(name);
      var file := new File(fullPath, fs);
      var attrs := file.Attrs();
      if file.handleType == Directory {
        Builder.DeeperShrinks(fs, dir, name);
        var sub;
        ok, sub := BuildFiles(fs, fullPath);
        entry := Dir(attrs, sub);
      } else {
        ok, entry := true, Leaf(attrs);
      }
    }

    /** `getFiles`: materializes the working view from the original when it is null. */
    method GetFiles() returns (r: seq<Entry>)
      modifies this`files
      ensures r == old(View())
      ensures files == Some(r)
    {
      if files.None? {
        files := Some(original);
      }
      r := files.value;
    }

    /** `reset`: drops the working view. */
    method Reset()
      modifies this`files
      ensures files.None?
    {
      files := None;
    }

    /** `get`: hands out the working view and drops it. */
    method Get() returns (r: seq<Entry>)
      modifies this`files
      ensures r == old(View())
      ensures files.None?
    {
      r := GetFiles();
      Reset();
    }

    /**
     * `search($key, $value, $recursive)`: the working view becomes the
     * search of the current view. `ok` is false where the view holds a
     * flattened directory and PHP raises a TypeError; `getFiles` has then
     * already materialized the view.
     */
    method Search(key: string, value: string, recursive: bool) returns (ok: bool)
      modifies this`files
      ensures ok <==> Nested(old(View()))
      ensures ok ==> files == Some(Query.Search(key, value, old(View())))
      ensures !ok ==> files == Some(old(View()))
    {
      var view := GetFiles();
      var found := Query.DoSearch(key, value, recursive, view);
      if found.TypeError? {
        return false;
      }
      files := Some(found.value);
      ok := true;
    }

    /**
     * `searchMany($key, $values, $recursive)`: the hits of each value, in
     * order and without removing repeats. When there are none the method
     * returns `false` (`matched` is false) and the working view keeps what
     * it was; only the `getFiles` calls, one per value, have materialized it.
     */
    method SearchMany(key: string, values: seq<string>, recursive: bool) returns (ok: bool, matched: bool)
      modifies this`files
      ensures values == [] ==> ok && !matched && files == old(files)
      ensures values != [] ==> (ok <==> Nested(old(View())))
      ensures values != [] && ok ==>
        && (matched <==> Query.SearchAll(key, values, old(View())) != [])
        && files == Some(if matched then Query.SearchAll(key, values, old(View())) else old(View()))
      ensures values != [] && !ok ==> files == Some(old(View()))
    {
      ghost var start, view0 := files, View();
      var found: seq<Entry> := [];
      var i := 0;
      while i < |values|
        invariant 0 <= i <= |values|
        invariant i == 0 ==> files == start && found == []
        invariant i > 0 ==> files == Some(view0) && Nested(view0)
        invariant i > 0 ==> found == Query.SearchAll(key, values[..i], view0)
      {
        var view := GetFiles();
        var hits := Query.DoSearch(key, values[i], recursive, view);
        if hits.TypeError? {
          return false, false;
        }
        Query.SearchAllPrefix(key, values, i, view0);
        found := Query.PushAll(found, hits.value);
        i := i + 1;
      }
      assert values[..i] == values;
      if |found| == 0 {
        return true, false;
      }
      files := Some(found);
      ok, matched := true, true;
    }

    /**
     * `flatten($includedirs, $toflatten)`: the working view becomes the
     * flattening of `toflatten`, or of the current view when `toflatten` is
     * null or empty (PHP's `== null` holds for an empty array too).
     */
    method Flatten(includeDirs: bool, toflatten: Option<seq<Entry>>) returns (ok: bool)
      modifies this`files
      ensures toflatten.None? || toflatten.value == [] ==>
        && (ok <==> Nested(old(View())))
        && files == Some(if ok then Query.Flatten(includeDirs, old(View())) else old(View()))
      ensures toflatten.Some? && toflatten.value != [] ==>
        && (ok <==> Nested(toflatten.value))
        && files == if ok then Some(Query.Flatten(includeDirs, toflatten.value)) else old(files)
    {
      var source: seq<Entry>;
      if toflatten.None? || toflatten.value == [] {
        source := GetFiles();
      } else {
        source := toflatten.value;
      }
      var flat := Query.FlattenIt(includeDirs, source);
      if flat.TypeError? {
        return false;
      }
      files := Some(flat.value);
      ok := true;
    }

    /**
     * The part of `count()` that runs before PHP 8 aborts it: the working
     * view is flattened to its files, directories dropped. `flattened` says
     * whether that flatten completed; `count()` itself never returns a
     * value, since `count` of the browser object then raises a TypeError.
     */
    method Count() returns (flattened: bool)
      modifies this`files
      ensures flattened <==> Nested(old(View()))
      ensures files == Some(if flattened then Query.Flatten(false, old(View())) else old(View()))
    {
      flattened := Flatten(false, None);
    }

    /** The number `count()` is documented to return: how many files the working view holds. */
    ghost function IntendedCount(): (n: nat)
      reads this
      requires Nested(View())
      ensures n == |Query.LeafBag(View())|
    {
      Query.FlattenContents(View());
      |Query.Flatten(false, View())|
    }
  }

  /** `get` consumes the working view: a second `get` hands out the original tree. */
  method GetTwice(b: FileBrowser) returns (first: seq<Entry>, second: seq<Entry>)
    modifies b`files
    ensures first == old(b.View())
    ensures second == b.original == old(b.original)
    ensures b.files.None?
  {
    first := b.Get();
    second := b.Get();
  }

  /**
   * Queries chain on the working view: two searches keep what matches both,
   * in either order, and `get` then starts over from the original.
   */
  method SearchTwice(b: FileBrowser, k1: string, v1: string, k2: string, v2: string)
      returns (r: seq<Entry>)
    requires Nested(b.View())
    modifies b`files
    ensures r == Query.Search(k2, v2, Query.Search(k1, v1, old(b.View())))
    ensures r == Query.Search(k1, v1, Query.Search(k2, v2, old(b.View())))
    ensures b.original == old(b.original) && b.View() == b.original
  {
    ghost var view := b.View();
    var ok1 := b.Search(k1, v1, true);
    var ok2 := b.Search(k2, v2, false);
    r := b.Get();
    Query.SearchCommutes(k1, v1, k2, v2, view);
  }

  /**
   * Flattening with directories leaves them with null `contents`, so a
   * second flattening of the same view fails exactly when the tree had a
   * directory; without directories flattening again changes nothing.
   */
  method FlattenTwice(b: FileBrowser, includeDirs: bool) returns (again: bool)
    requires Nested(b.View())
    modifies b`files
    ensures again <==> !includeDirs || Query.DirCount(old(b.View())) == 0
    ensures !includeDirs ==> b.files == Some(Query.Flatten(false, old(b.View())))
    ensures b.original == old(b.original)
  {
    ghost var view := b.View();
    var ok := b.Flatten(includeDirs, None);
    Query.FlattenNested(includeDirs, view);
    if !includeDirs {
      Query.FlattenIdempotent(view);
    }
    again := b.Flatten(includeDirs, None);
  }
}
