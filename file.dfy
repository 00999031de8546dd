/**
 * The entry descriptor `File`: one filesystem node, its kind chosen by the
 * first probe that answers yes, its name and extension taken from its path,
 * and the metadata `lstat` and `mime_content_type` report.
 */
module FileEntry {
  import opened Outcomes
  import opened Paths
  import opened FileSystem
  import opened Entries

  /** The `handle_type` of an entry. */
  datatype HandleType = Link | Directory | Executable | RegularFile | Unknown

  /** The five `File::` constants. */
  const HandleTypeNames: set<string> := {"link", "directory", "executable", "file", "unknown"}

  function TypeName(t: HandleType): (name: string)
    ensures name in HandleTypeNames
  {
    match t
    case Link => "link"
    case Directory => "directory"
    case Executable => "executable"
    case RegularFile => "file"
    case Unknown => "unknown"
  }

  /** Distinct kinds are recorded as distinct constants. */
  lemma TypeNameInjective(s: HandleType, t: HandleType)
    ensures TypeName(s) == TypeName(t) ==> s == t
  {
  }

  /** The position of a kind in the order in which `parseFile` probes. */
  function Rank(t: HandleType): nat
  {
    match t
    case Link => 0
    case Directory => 1
    case Executable => 2
    case RegularFile => 3
    case Unknown => 4
  }

  /** The probe that leads to `t` answers yes; `Unknown` needs no probe. */
  predicate Answers(p: Probes, t: HandleType)
  {
    match t
    case Link => p.isLink
    case Directory => p.isDir
    case Executable => p.isExecutable
    case RegularFile => p.isFile
    case Unknown => true
  }

  /**
   * The kind `parseFile` records: the first kind, in probing order, whose
   * probe answers yes.
   */
  function Classify(p: Probes): (t: HandleType)
    ensures Answers(p, t)
  {
    if p.isLink then Link
    else if p.isDir then Directory
    else if p.isExecutable then Executable
    else if p.isFile then RegularFile
    else Unknown
  }

  /** No kind probed before the recorded one answers yes. */
  lemma ClassifyFirst(p: Probes)
    ensures forall u: HandleType :: Rank(u) < Rank(Classify(p)) ==> !Answers(p, u)
  {
  }

  /** First match decides, so exactly one kind satisfies the probing rule. */
  lemma ClassifyUnique(p: Probes, t: HandleType)
    requires Answers(p, t)
    requires forall u: HandleType :: Rank(u) < Rank(t) ==> !Answers(p, u)
    ensures t == Classify(p)
  {
    var c := Classify(p);
    ClassifyFirst(p);
    assert Rank(t) == Rank(c);
  }

  /** A link to a directory is a link, and an executable regular file is executable. */
  lemma ClassifyPrecedence(p: Probes)
    ensures p.isLink ==> Classify(p) == Link
    ensures !p.isLink && p.isDir ==> Classify(p) == Directory
    ensures !p.isLink && !p.isDir && p.isExecutable && p.isFile ==> Classify(p) == Executable
  {
  }

  /** The `dirname` that `pathinfo` sets, or null when it leaves the key unset. */
  function DirnameOf(path: string): (r: Option<string>)
    ensures r.None? <==> path == ""
  {
    var d := Dirname(path);
    if d == "" then None else Some(d)
  }

  /** The fields `parseFile` assigns, with `None` for a property left null. */
  datatype Descriptor = Descriptor(
    fullPath: string, handleType: HandleType, fileName: string, directory: Option<string>,
    fileType: string, fileSize: Option<int>, atime: Option<int>, mtime: Option<int>,
    mimeType: Option<string>)

  /**
   * What `parseFile` records for `path`: the first-match kind, the base name,
   * the parent directory, the extension ('' when there is none), the size and
   * times of `lstat` (null when it fails) and the MIME type.
   */
  function Describe(fs: Fs, path: string): Descriptor
  {
    var stat := StatAt(fs, path);
    Descriptor(
      path, Classify(ProbesAt(fs, path)), Basename(path), DirnameOf(path), Extension(Basename(path)),
      if stat.Some? then Some(stat.value.size) else None,
      if stat.Some? then Some(stat.value.atime) else None,
      if stat.Some? then Some(stat.value.mtime) else None,
      MimeAt(fs, path))
  }

  /**
   * The attribute array an entry presents, keyed by the property names of
   * `File`. A null property is absent; `mime_type` is `false` when
   * `mime_content_type` fails.
   */
  function Properties(d: Descriptor): Attrs
  {
    var common := map[
      "full_path" := Str(d.fullPath),
      "handle_type" := Str(TypeName(d.handleType)),
      "file_name" := Str(d.fileName),
      "file_type" := Str(d.fileType),
      "mime_type" := if d.mimeType.Some? then Str(d.mimeType.value) else Bool(false)];
    var withDir := if d.directory.Some? then common["directory" := Str(d.directory.value)] else common;
    var withSize := if d.fileSize.Some? then withDir["file_size" := Int(d.fileSize.value)] else withDir;
    var withAtime := if d.atime.Some? then withSize["atime" := Int(d.atime.value)] else withSize;
    if d.mtime.Some? then withAtime["mtime" := Int(d.mtime.value)] else withAtime
  }

  /** What the attribute array records under each key. */
  lemma PropertiesKeys(d: Descriptor)
    ensures var a := Properties(d);
      && Has(a, "full_path", Str(d.fullPath)) && Has(a, "handle_type", Str(TypeName(d.handleType)))
      && Has(a, "file_name", Str(d.fileName)) && Has(a, "file_type", Str(d.fileType))
      && ("directory" in a <==> d.directory.Some?)
      && (d.directory.Some? ==> a["directory"] == Str(d.directory.value))
      && ("file_size" in a <==> d.fileSize.Some?)
  {
  }

  /** The attributes of the entry that `new File($path)` describes. */
  function AttrsAt(fs: Fs, path: string): (a: Attrs)
    ensures Has(a, "full_path", Str(path))
    ensures Has(a, "file_name", Str(Basename(path)))
    ensures Has(a, "handle_type", Str(TypeName(Classify(ProbesAt(fs, path)))))
    ensures Has(a, "file_type", Str(Extension(Basename(path))))
    ensures "file_size" in a <==> path in fs.stats
  {
    PropertiesKeys(Describe(fs, path));
    Properties(Describe(fs, path))
  }

  /** A non-empty path records its parent directory; only the empty path leaves `directory` unset. */
  lemma AttrsAtDirectory(fs: Fs, path: string)
    ensures path != "" ==> Has(AttrsAt(fs, path), "directory", Str(Dirname(path)))
    ensures path == "" ==> "directory" !in AttrsAt(fs, path)
  {
    PropertiesKeys(Describe(fs, path));
  }

  class File {
    var fullPath: string
    var handleType: HandleType
    var fileName: string
    var directory: Option<string>
    var fileType: string
    var fileSize: Option<int>
    var atime: Option<int>
    var mtime: Option<int>
    var mimeType: Option<string>

    /** The fields, as one record. */
    function Fields(): Descriptor
      reads this
    {
      Descriptor(fullPath, handleType, fileName, directory, fileType, fileSize, atime, mtime, mimeType)
    }

    /** The attribute array of this entry. */
    function Attrs(): Attrs
      reads this
    {
      Properties(Fields())
    }

    /** `new File($path)`: records the path, then parses it. */
    constructor (path: string, fs: Fs)
      ensures fullPath == path
      ensures Fields() == Describe(fs, path)
    {
      fullPath := path;
      new;
      ParseFile(fs);
    }

    /** The `is_link` / `is_dir` / `is_executable` / `is_file` chain of `parseFile`. */
    static method ClassifyProbes(probes: Probes) returns (kind: HandleType)
      ensures kind == Classify(probes)
    {
      if probes.isLink {
        kind := Link;
      } else if probes.isDir {
        kind := Directory;
      } else if probes.isExecutable {
        kind := Executable;
      } else if probes.isFile {
        kind := RegularFile;
      } else {
        kind := Unknown;
      }
    }

    /** `parseFile`: probes the path and assigns every other field, leaving `full_path` as it is. */
    method ParseFile(fs: Fs)
      modifies this`handleType, this`fileName, this`directory, this`fileType
      modifies this`fileSize, this`atime, this`mtime, this`mimeType
      ensures fullPath == old(fullPath)
      ensures Fields() == Describe(fs, fullPath)
    {
      var path := fullPath;
      var fileStat := StatAt(fs, path);
      var kind := ClassifyProbes(ProbesAt(fs, path));
      handleType := kind;
      fileName := Basename(path);
      directory := DirnameOf(path);
      fileType := Extension(fileName);
      fileSize := if fileStat.Some? then Some(fileStat.value.size) else None;
      atime := if fileStat.Some? then Some(fileStat.value.atime) else None;
      mtime := if fileStat.Some? then Some(fileStat.value.mtime) else None;
      mimeType := MimeAt(fs, path);
    }
  }
}
