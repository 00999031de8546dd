/**
 * The string functions of the PHP runtime that the file browser uses on
 * paths: `rtrim($p, '/')`, `basename`, and the `dirname` / `extension`
 * parts of `pathinfo`, on Unix (where '/' is the only separator).
 */
module Paths {

  /** Index of the last occurrence of `c` in `s`, or -1 when there is none. */
  function LastIndexOf(s: string, c: char): (k: int)
    ensures -1 <= k < |s|
    ensures k >= 0 ==> s[k] == c
    ensures forall j :: k < j < |s| ==> s[j] != c
  {
    if s == [] then -1
    else if s[|s| - 1] == c then |s| - 1
    else LastIndexOf(s[..|s| - 1], c)
  }

  /** `rtrim($s, '/')`: all trailing slashes removed. */
  function RTrimSlash(s: string): (r: string)
    ensures |r| <= |s| && r == s[..|r|]
    ensures r == [] || r[|r| - 1] != '/'
    ensures forall j :: |r| <= j < |s| ==> s[j] == '/'
  {
    if s != [] && s[|s| - 1] == '/' then RTrimSlash(s[..|s| - 1]) else s
  }

  /** `basename($p)`: trailing slashes dropped, then the part after the last slash. */
  function Basename(p: string): string
  {
    var t := RTrimSlash(p);
    t[LastIndexOf(t, '/') + 1..]
  }

  /**
   * The `dirname` part of `pathinfo($p)`: "" for the empty path (PHP then
   * leaves the key unset), "/" when only slashes precede the last component,
   * "." when there is no slash at all, otherwise everything before the last
   * component with its trailing slashes dropped.
   */
  function Dirname(p: string): (r: string)
    ensures r == "" <==> p == ""
    ensures r != "/" && r != "." && r != "" ==> r[|r| - 1] != '/'
  {
    if p == "" then ""
    else
      var t := RTrimSlash(p);
      if t == "" then "/"
      else
        var k := LastIndexOf(t, '/');
        if k < 0 then "."
        else
          var d := RTrimSlash(t[..k]);
          if d == "" then "/" else d
  }

  /**
   * The `extension` part of `pathinfo`, which the file entry defaults to '':
   * what follows the last '.' of the base name.
   */
  function Extension(name: string): string
  {
    var k := LastIndexOf(name, '.');
    if k < 0 then "" else name[k + 1..]
  }

  /**
   * The base name is the last component: it holds no slash, ends the path
   * once trailing slashes are dropped, and is preceded there by a slash
   * unless it is the whole of it.
   */
  lemma BasenameIsLastComponent(p: string)
    ensures var t, r := RTrimSlash(p), Basename(p);
      && (forall j | 0 <= j < |r| :: r[j] != '/')
      && |r| <= |t| && t[|t| - |r|..] == r
      && (|r| == |t| || t[|t| - |r| - 1] == '/')
  {
  }

  /**
   * The extension holds no dot; it is empty when the name has no dot, and
   * otherwise it is what follows the name's last dot.
   */
  lemma ExtensionIsLastSuffix(name: string)
    ensures var r := Extension(name);
      && (forall j | 0 <= j < |r| :: r[j] != '.')
      && ((forall j | 0 <= j < |name| :: name[j] != '.') ==> r == "")
      && ((exists j | 0 <= j < |name| :: name[j] == '.') ==>
            |r| < |name| && name[|name| - |r| - 1] == '.' && name[|name| - |r|..] == r)
  {
  }

  /** The child path `rtrim($dir, '/') . '/' . basename($name)` built for each listed name. */
  function Join(dir: string, name: string): string
  {
    RTrimSlash(dir) + "/" + Basename(name)
  }

  /** The last `c` of `x + [c] + b`, where `b` holds no `c`, is the one after `x`. */
  lemma {:induction false} LastIndexAfter(x: string, c: char, b: string)
    requires c !in b
    ensures LastIndexOf(x + [c] + b, c) == |x|
  {
    var s := x + [c] + b;
    if b != [] {
      assert s[|s| - 1] == b[|b| - 1];
      assert s[..|s| - 1] == x + [c] + b[..|b| - 1];
      LastIndexAfter(x, c, b[..|b| - 1]);
    } else {
      assert s[|s| - 1] == c;
    }
  }

  /** A string without `c` has no last `c`. */
  lemma {:induction false} LastIndexAbsent(s: string, c: char)
    requires c !in s
    ensures LastIndexOf(s, c) == -1
  {
    if s != [] {
      LastIndexAbsent(s[..|s| - 1], c);
    }
  }

  /** The extension of `stem.ext` is `ext` when `ext` holds no dot, and a name without a dot has none. */
  lemma ExtensionOf(stem: string, ext: string)
    requires '.' !in ext
    ensures Extension(stem + "." + ext) == ext
    ensures '.' !in stem ==> Extension(stem) == ""
  {
    LastIndexAfter(stem, '.', ext);
    var s := stem + "." + ext;
    assert s[|stem| + 1..] == ext;
    if '.' !in stem {
      LastIndexAbsent(stem, '.');
    }
  }

  lemma RTrimSlashIdempotent(s: string)
    ensures RTrimSlash(RTrimSlash(s)) == RTrimSlash(s)
  {
  }

  /** A path that does not end in a slash is its own `rtrim`. */
  lemma RTrimSlashNoTrailing(s: string)
    requires s != [] && s[|s| - 1] != '/'
    ensures RTrimSlash(s) == s
  {
  }

  /** A name without slashes is its own base name. */
  lemma BasenameOfName(name: string)
    requires name != "" && '/' !in name
    ensures Basename(name) == name
  {
    RTrimSlashNoTrailing(name);
    assert LastIndexOf(name, '/') == -1;
  }

  /** In `x/name`, where `name` is a non-empty name without slashes, the last slash is the one after `x`. */
  lemma LastComponent(x: string, name: string)
    requires name != "" && '/' !in name
    ensures var p := x + "/" + name;
      && RTrimSlash(p) == p && LastIndexOf(p, '/') == |x|
      && p[|x| + 1..] == name && p[..|x|] == x
  {
    var p := x + "/" + name;
    assert p[|p| - 1] == name[|name| - 1];
    RTrimSlashNoTrailing(p);
    LastIndexAfter(x, '/', name);
    assert p[|x| + 1..] == name;
    assert p[..|x|] == x;
  }

  /** A joined child path splits back into the child's name and its parent directory. */
  lemma JoinSplits(dir: string, name: string)
    requires name != "" && '/' !in name
    ensures Basename(Join(dir, name)) == name
    ensures Dirname(Join(dir, name)) == if RTrimSlash(dir) == "" then "/" else RTrimSlash(dir)
  {
    var x := RTrimSlash(dir);
    BasenameOfName(name);
    assert Join(dir, name) == x + "/" + name;
    LastComponent(x, name);
    RTrimSlashIdempotent(dir);
  }
}
