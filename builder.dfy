/**
 * What `FileBrowser::buildFiles` builds from a filesystem: for every listed
 * name except `.` and `..`, in listing order, the entry of the joined child
 * path, descending into exactly the children classified as directories.
 */
module Builder {
  import opened Outcomes
  import opened Paths
  import opened FileSystem
  import opened Entries
  import opened FileEntry

  /** `array_diff($names, ['.', '..'])`: the names other than `.` and `..`, in order. */
  function WithoutDots(names: seq<string>): (r: seq<string>)
    ensures |r| <= |names|
    ensures forall i | 0 <= i < |r| :: r[i] != "." && r[i] != ".."
    ensures forall n :: n in r <==> n in names && n != "." && n != ".."
  {
    if names == [] then []
    else
      var last := names[|names| - 1];
      var prior := WithoutDots(names[..|names| - 1]);
      assert names == names[..|names| - 1] + [last];
      if last == "." || last == ".." then prior else prior + [last]
  }

  /** A single name survives exactly when it is neither `.` nor `..`. */
  lemma WithoutDotsSingle(n: string)
    ensures WithoutDots([n]) == if n == "." || n == ".." then [] else [n]
  {
    assert [n][..0] == [];
  }

  /** Filtering a concatenation concatenates the filtered parts: the listing order is kept. */
  lemma {:induction false} WithoutDotsAppend(a: seq<string>, b: seq<string>)
    ensures WithoutDots(a + b) == WithoutDots(a) + WithoutDots(b)
    decreases |b|
  {
    if b == [] {
      assert a + b == a;
    } else {
      var ab := a + b;
      assert ab[..|ab| - 1] == a + b[..|b| - 1];
      assert ab[|ab| - 1] == b[|b| - 1];
      WithoutDotsAppend(a, b[..|b| - 1]);
    }
  }

  /** The listed directories whose path is at least as long as `path`'s: what is left to descend into. */
  ghost function Deeper(fs: Fs, path: string): set<string>
  {
    set k | k in fs.listing && |k| >= |RTrimSlash(path)|
  }

  /** Descending from a listed directory into a child leaves strictly fewer directories to descend into. */
  lemma DeeperShrinks(fs: Fs, dir: string, name: string)
    requires dir in fs.listing && RTrimSlash(dir) == dir && ValidName(name)
    ensures Deeper(fs, Join(dir, name)) < Deeper(fs, dir)
  {
    var child := Join(dir, name);
    BasenameOfName(name);
    assert child == dir + "/" + name;
    assert child[|child| - 1] == name[|name| - 1];
    RTrimSlashNoTrailing(child);
    assert dir in Deeper(fs, dir) && dir !in Deeper(fs, child);
  }

  /** The names `buildFiles` walks in the directory `dir`, or `None` when it cannot be listed. */
  function Children(fs: Fs, dir: string): (r: Option<seq<string>>)
    requires Wf(fs)
    ensures r.Some? <==> dir != "" && dir in fs.listing
    ensures r.Some? ==> forall i | 0 <= i < |r.value| :: ValidName(r.value[i]) && r.value[i] != "." && r.value[i] != ".."
  {
    var scanned := ScanDir(fs, dir);
    if scanned.None? then None
    else
      var names := WithoutDots(scanned.value);
      assert forall i | 0 <= i < |names| :: names[i] in scanned.value;
      Some(names)
  }

  /**
   * The tree `buildFiles($path)` returns. A directory that cannot be listed
   * makes `array_diff` receive `false`, a TypeError that aborts the build.
   */
  function Tree(fs: Fs, path: string): (r: Result<seq<Entry>>)
    requires Wf(fs)
    ensures r.Ok? ==> RTrimSlash(path) != "" && RTrimSlash(path) in fs.listing
    decreases Deeper(fs, path), 1, 0
  {
    var dir := RTrimSlash(path);
    var names := Children(fs, dir);
    if names.None? then TypeError
    else
      RTrimSlashIdempotent(path);
      Build(fs, dir, names.value)
  }

  /** The entries `buildFiles` pushes for the first `|names|` children of `dir`. */
  function Build(fs: Fs, dir: string, names: seq<string>): (r: Result<seq<Entry>>)
    requires Wf(fs) && dir in fs.listing && RTrimSlash(dir) == dir
    requires forall i | 0 <= i < |names| :: ValidName(names[i])
    ensures r.Ok? ==> |r.value| == |names|
    decreases Deeper(fs, dir), 0, |names|
  {
    if names == [] then Ok([])
    else
      match Build(fs, dir, names[..|names| - 1])
      case TypeError => TypeError
      case Ok(prior) =>
        match Child(fs, dir, names[|names| - 1])
        case TypeError => TypeError
        case Ok(e) =>
          Ok(prior + [e])
  }

  /** The entry `buildFiles` pushes for the child `name` of `dir`, built below it when it is a directory. */
  function Child(fs: Fs, dir: string, name: string): (r: Result<Entry>)
    requires Wf(fs) && dir in fs.listing && RTrimSlash(dir) == dir && ValidName(name)
    decreases Deeper(fs, dir), 0, 0
  {
    var child := Join(dir, name);
    if Classify(ProbesAt(fs, child)) == Directory then
      DeeperShrinks(fs, dir, name);
      match Tree(fs, child)
      case TypeError => TypeError
      case Ok(sub) => Ok(Dir(AttrsAt(fs, child), sub))
    else Ok(Leaf(AttrsAt(fs, child)))
  }

  /** One more child extends a successful build by that child's entry: a step of the `foreach`. */
  lemma BuildStep(fs: Fs, dir: string, names: seq<string>, i: nat, prior: seq<Entry>, e: Entry)
    requires Wf(fs) && dir in fs.listing && RTrimSlash(dir) == dir
    requires forall k | 0 <= k < |names| :: ValidName(names[k])
    requires i < |names| && Build(fs, dir, names[..i]) == Ok(prior) && Child(fs, dir, names[i]) == Ok(e)
    ensures Build(fs, dir, names[..i + 1]) == Ok(prior + [e])
  {
    var n := names[..i + 1];
    assert n[..|n| - 1] == names[..i] && n[|n| - 1] == names[i];
  }

  /** A child whose build fails makes the whole build fail. */
  lemma {:induction false} BuildFails(fs: Fs, dir: string, names: seq<string>, i: nat)
    requires Wf(fs) && dir in fs.listing && RTrimSlash(dir) == dir
    requires forall k | 0 <= k < |names| :: ValidName(names[k])
    requires i < |names| && Child(fs, dir, names[i]).TypeError?
    ensures Build(fs, dir, names).TypeError?
    decreases |names|
  {
    if i < |names| - 1 {
      var init := names[..|names| - 1];
      assert init[i] == names[i];
      BuildFails(fs, dir, init, i);
    }
  }

  /** The entry pushed for the child path `child`. */
  ghost predicate EntryFor(fs: Fs, child: string, e: Entry)
    requires Wf(fs)
  {
    && e.attrs == AttrsAt(fs, child)
    && !e.ClearedDir?
    && (e.Dir? <==> Classify(ProbesAt(fs, child)) == Directory)
    && (e.Dir? ==> Tree(fs, child) == Ok(e.contents))
  }

  /**
   * The entry for one child: the attributes of the joined path, a directory
   * exactly when that path is classified as one, holding the tree built
   * below it; it fails exactly when that directory's build fails.
   */
  lemma ChildShape(fs: Fs, dir: string, name: string)
    requires Wf(fs) && dir in fs.listing && RTrimSlash(dir) == dir && ValidName(name)
    ensures var child := Join(dir, name);
      Child(fs, dir, name).Ok? <==> (Classify(ProbesAt(fs, child)) == Directory ==> Tree(fs, child).Ok?)
    ensures Child(fs, dir, name).Ok? ==> EntryFor(fs, Join(dir, name), Child(fs, dir, name).value)
  {
  }

  /**
   * The build succeeds exactly when every child's entry does; its entries
   * are then, position by position, the entries of the children.
   */
  lemma {:induction false} BuildShape(fs: Fs, dir: string, names: seq<string>)
    requires Wf(fs) && dir in fs.listing && RTrimSlash(dir) == dir
    requires forall i | 0 <= i < |names| :: ValidName(names[i])
    ensures Build(fs, dir, names).Ok? <==> forall i | 0 <= i < |names| :: Child(fs, dir, names[i]).Ok?
    ensures Build(fs, dir, names).Ok? ==>
      forall i | 0 <= i < |names| :: Child(fs, dir, names[i]) == Ok(Build(fs, dir, names).value[i])
    decreases |names|
  {
    if names != [] {
      var init := names[..|names| - 1];
      var name := names[|names| - 1];
      assert names == init + [name];
      assert name in names;
      BuildShape(fs, dir, init);
      var b := Build(fs, dir, init);
      var c := Child(fs, dir, name);
      var whole := Build(fs, dir, names);
      assert whole == if b.TypeError? || c.TypeError? then TypeError else Ok(b.value + [c.value]);
      if whole.Ok? {
        var w := b.value + [c.value];
        assert whole.value == w;
        forall i | 0 <= i < |names|
          ensures Child(fs, dir, names[i]) == Ok(whole.value[i])
        {
          if i < |init| {
            assert names[i] == init[i] && w[i] == b.value[i];
          } else {
            assert names[i] == name && w[i] == c.value;
          }
        }
      }
    }
  }

  /**
   * `buildFiles($path)`, child by child: it fails exactly when the directory
   * or a directory below it cannot be listed; otherwise it has one entry per
   * listed name other than `.` and `..`, carrying the attributes of the
   * joined path, a directory exactly when that path is classified as one.
   */
  lemma TreeShape(fs: Fs, path: string)
    requires Wf(fs)
    ensures var dir := RTrimSlash(path);
      Tree(fs, path).Ok? <==>
        dir != "" && dir in fs.listing &&
        forall i | 0 <= i < |Children(fs, dir).value| ::
          var child := Join(dir, Children(fs, dir).value[i]);
          Classify(ProbesAt(fs, child)) == Directory ==> Tree(fs, child).Ok?
    ensures var dir := RTrimSlash(path);
      Tree(fs, path).Ok? ==>
        |Tree(fs, path).value| == |Children(fs, dir).value| &&
        forall i | 0 <= i < |Tree(fs, path).value| ::
          EntryFor(fs, Join(dir, Children(fs, dir).value[i]), Tree(fs, path).value[i])
  {
    var dir := RTrimSlash(path);
    RTrimSlashIdempotent(path);
    if dir != "" && dir in fs.listing {
      var names := Children(fs, dir).value;
      assert Tree(fs, path) == Build(fs, dir, names);
      BuildEntries(fs, dir, names);
    }
  }

  /** The build of a listable directory's names, child by child, as `TreeShape` states it. */
  lemma BuildEntries(fs: Fs, dir: string, names: seq<string>)
    requires Wf(fs) && dir in fs.listing && RTrimSlash(dir) == dir
    requires forall i | 0 <= i < |names| :: ValidName(names[i])
    ensures Build(fs, dir, names).Ok? <==>
      forall i | 0 <= i < |names| ::
        var child := Join(dir, names[i]);
        Classify(ProbesAt(fs, child)) == Directory ==> Tree(fs, child).Ok?
    ensures Build(fs, dir, names).Ok? ==>
      forall i | 0 <= i < |names| :: EntryFor(fs, Join(dir, names[i]), Build(fs, dir, names).value[i])
  {
    BuildShape(fs, dir, names);
    forall i | 0 <= i < |names|
      ensures var child := Join(dir, names[i]);
        && (Child(fs, dir, names[i]).Ok? <==> (Classify(ProbesAt(fs, child)) == Directory ==> Tree(fs, child).Ok?))
        && (Child(fs, dir, names[i]).Ok? ==> EntryFor(fs, child, Child(fs, dir, names[i]).value))
    {
      ChildShape(fs, dir, names[i]);
    }
  }

  /** A built tree holds an array in every directory's `contents`, so the queries can descend into all of it. */
  lemma TreeNested(fs: Fs, path: string)
    requires Wf(fs) && Tree(fs, path).Ok?
    ensures Nested(Tree(fs, path).value)
    decreases Deeper(fs, path)
  {
    var dir, r := RTrimSlash(path), Tree(fs, path).value;
    TreeShape(fs, path);
    RTrimSlashIdempotent(path);
    var names := Children(fs, dir).value;
    forall i | 0 <= i < |r|
      ensures !r[i].ClearedDir? && (r[i].Dir? ==> Nested(r[i].contents))
    {
      var child := Join(dir, names[i]);
      assert EntryFor(fs, child, r[i]);
      if r[i].Dir? {
        DeeperShrinks(fs, dir, names[i]);
        TreeNested(fs, child);
      }
    }
  }

  /**
   * A base path made only of slashes trims to the empty path, which
   * `scandir` refuses: such a tree is never built.
   */
  lemma TreeOfSlashes(fs: Fs, path: string)
    requires Wf(fs) && forall j | 0 <= j < |path| :: path[j] == '/'
    ensures Tree(fs, path).TypeError?
  {
  }

  /** What the entry the build pushes for `name` in `dir` records about its path. */
  lemma EntryAttrs(fs: Fs, dir: string, name: string, e: Entry)
    requires Wf(fs) && dir != "" && RTrimSlash(dir) == dir && ValidName(name)
    requires EntryFor(fs, Join(dir, name), e)
    ensures Has(e.attrs, "file_name", Str(name))
    ensures Has(e.attrs, "full_path", Str(dir + "/" + name))
    ensures Has(e.attrs, "directory", Str(dir))
    ensures e.Dir? <==> Has(e.attrs, "handle_type", Str("directory"))
    ensures e.Dir? ==> ProbesAt(fs, dir + "/" + name).isDir && !ProbesAt(fs, dir + "/" + name).isLink
  {
    var child := Join(dir, name);
    JoinSplits(dir, name);
    BasenameOfName(name);
    assert child == dir + "/" + name;
    var t := Classify(ProbesAt(fs, child));
    TypeNameInjective(t, Directory);
    AttrsAtDirectory(fs, child);
  }

  /**
   * No entry is built for `.` or `..`; each child's path is
   * `rtrim($path, '/') . '/' . $name`, its name is the listed name and its
   * directory the parent; and a child is a directory entry exactly when its
   * `handle_type` says so, which a link never is.
   */
  lemma TreeEntries(fs: Fs, path: string)
    requires Wf(fs) && Tree(fs, path).Ok?
    ensures var dir, r := RTrimSlash(path), Tree(fs, path).value;
      forall i | 0 <= i < |r| ::
        var name := Children(fs, dir).value[i];
        && Has(r[i].attrs, "file_name", Str(name))
        && !Has(r[i].attrs, "file_name", Str(".")) && !Has(r[i].attrs, "file_name", Str(".."))
        && Has(r[i].attrs, "full_path", Str(dir + "/" + name))
        && Has(r[i].attrs, "directory", Str(dir))
        && (r[i].Dir? <==> Has(r[i].attrs, "handle_type", Str("directory")))
        && (r[i].Dir? ==> ProbesAt(fs, dir + "/" + name).isDir && !ProbesAt(fs, dir + "/" + name).isLink)
  {
    var dir, r := RTrimSlash(path), Tree(fs, path).value;
    TreeShape(fs, path);
    RTrimSlashIdempotent(path);
    var names := Children(fs, dir).value;
    forall i | 0 <= i < |r|
      ensures var name := names[i];
        && Has(r[i].attrs, "file_name", Str(name))
        && !Has(r[i].attrs, "file_name", Str(".")) && !Has(r[i].attrs, "file_name", Str(".."))
        && Has(r[i].attrs, "full_path", Str(dir + "/" + name))
        && Has(r[i].attrs, "directory", Str(dir))
        && (r[i].Dir? <==> Has(r[i].attrs, "handle_type", Str("directory")))
        && (r[i].Dir? ==> ProbesAt(fs, dir + "/" + name).isDir && !ProbesAt(fs, dir + "/" + name).isLink)
    {
      EntryAttrs(fs, dir, names[i], r[i]);
    }
  }
}
