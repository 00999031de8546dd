/**
 * The filesystem as the browser sees it, as plain data: what `scandir`
 * lists, what `is_link` / `is_dir` / `is_executable` / `is_file` answer,
 * what `lstat` reports and what `mime_content_type` guesses, per path.
 */
module FileSystem {
  import opened Outcomes

  /** The four answers the entry descriptor probes for, in the order it asks. */
  datatype Probes = Probes(isLink: bool, isDir: bool, isExecutable: bool, isFile: bool)

  /** The `lstat` fields the entry descriptor keeps. */
  datatype Stat = Stat(size: int, atime: int, mtime: int)

  datatype Fs = Fs(
    listing: map<string, seq<string>>,
    probes: map<string, Probes>,
    stats: map<string, Stat>,
    mimeTypes: map<string, string>)

  /** The probes at `path`; each of them is false for a path that does not exist. */
  function ProbesAt(fs: Fs, path: string): Probes
  {
    if path in fs.probes then fs.probes[path] else Probes(false, false, false, false)
  }

  /**
   * `scandir($path)`: the listing, or `None` where PHP fails: for a path
   * that cannot be listed, and always for the empty path.
   */
  function ScanDir(fs: Fs, path: string): (r: Option<seq<string>>)
    ensures r.Some? <==> path != "" && path in fs.listing
  {
    if path != "" && path in fs.listing then Some(fs.listing[path]) else None
  }

  /** `lstat($path)`, `None` where PHP returns `false`. */
  function StatAt(fs: Fs, path: string): (r: Option<Stat>)
    ensures r.Some? <==> path in fs.stats
  {
    if path in fs.stats then Some(fs.stats[path]) else None
  }

  /** `mime_content_type($path)`, `None` where PHP returns `false`. */
  function MimeAt(fs: Fs, path: string): (r: Option<string>)
    ensures r.Some? <==> path in fs.mimeTypes
  {
    if path in fs.mimeTypes then Some(fs.mimeTypes[path]) else None
  }

  /** A name a directory can list: not empty, and without a slash. */
  predicate ValidName(n: string)
  {
    n != "" && '/' !in n
  }

  /** Every listed name is a valid directory-entry name (`.` and `..` included). */
  predicate Wf(fs: Fs)
  {
    forall p | p in fs.listing :: forall k | 0 <= k < |fs.listing[p]| :: ValidName(fs.listing[p][k])
  }
}
