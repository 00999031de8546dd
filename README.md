# FileBrowser, modelled in Dafny

A model of the core of `stobbsm/filebrowser`: the PHP class `FileBrowser`
that walks a directory tree into nested arrays of `File` descriptors and
then answers key/value searches and flattenings over that tree, and the
decision logic of the `File` descriptor (what kind of node a path is, and
its name, directory and extension).

The model is split into modules that follow the program's structure:

- `Outcomes` (`entries.dfy`): `Option`, and `Result`, whose one error,
  `TypeError`, stands for the error that aborts an operation: the
  `TypeError` PHP raises when `null` reaches a parameter declared `array`
  (`dosearch`, `flattenIt`), and, from PHP 8 on, the `TypeError` of
  `array_diff` given `false` and the `ValueError` of `scandir('')`.
- `Entries` (`entries.dfy`): the tree. An entry is `Leaf(attrs)`, a directory
  `Dir(attrs, contents)`, or `ClearedDir(attrs)`, a directory whose
  `contents` was set to null by `flattenIt`. Attributes map property names to
  `Str`, `Int` (what `lstat` reports) or `Bool` (the `false` of a failed
  `mime_content_type`). `Nested` says that every directory below still holds
  an array, i.e. that searching or flattening cannot hit a null `contents`.
- `FileSystem` (`filesystem.dfy`): the filesystem as data — what `scandir`
  lists, what `is_link`/`is_dir`/`is_executable`/`is_file` answer, what
  `lstat` and `mime_content_type` return, per path.
- `Paths` (`paths.dfy`): `rtrim($p, '/')`, `basename`, the `dirname` and
  `extension` parts of `pathinfo`, and the child-path join of `buildFiles`.
- `FileEntry` (`file.dfy`): the first-match classification as a pure function
  of the four probes, the record `Descriptor` of what `parseFile` assigns for
  a path (`Describe`), the attribute array of an entry, and the class `File`
  whose constructor records `full_path` and whose `ParseFile` assigns the
  other fields one after another.
- `Query` (`query.dfy`): `dosearch` and `flattenIt`, each loop a method
  proved against a specification function (`Search`, `Flatten`), and
  `SearchAll`, the concatenation that `searchMany`'s loop
  (`Browser.FileBrowser.SearchMany`) is proved against, with the lemmas
  about those functions.
- `Builder` (`builder.dfy`): the tree `buildFiles` builds, as functions over
  the filesystem, with lemmas about its shape.
- `Browser` (`browser.dfy`): the class `FileBrowser` with the original tree
  `_files` (`original`), the working view `files` (`None` while null) and
  `file_index`; `buildFiles`, `getFiles`, `get`, `reset`, `search`,
  `searchMany`, `flatten` and `count` are methods that update those fields.
- `Scenario` (`scenario.dfy`): a three-entry tree with a link and a nested
  file, flattened and searched.

Behaviour the model keeps as the code has it, which a reader of the code
may not expect (the model follows PHP 8 or later where the versions differ):

- `dosearch` tests `$recursive = true`, an assignment, so every directory is
  searched whatever `recursive` is, although the doc comments of `search`
  and `searchMany` describe the flag as "Search recursively"
  (src/FileBrowser.php:125, :161); and `isset` of the
  resulting array is always true, so every directory is kept, even with no
  match below it. A pruning search would drop a directory with no match
  below it and would leave directories unsearched when the flag is false.
- A directory that `scandir` cannot list makes `scandir` return `false`,
  which `array_diff` refuses with a `TypeError` on PHP 8: the whole build
  aborts instead of keeping the directory with empty contents.
- A base path made only of slashes (`/`) is trimmed to the empty path by
  `rtrim`, and `scandir('')` raises a `ValueError` on PHP 8, so the
  filesystem root cannot be browsed (`TreeOfSlashes`); the model treats that
  failure as the same aborted build.
- `flattenIt` keeps links (they are not directories), so the flattening of a
  root holding `a.txt`, `link1` and `sub/b.txt` is `a.txt, link1, b.txt`.
- `flatten($d, [])` flattens the current view, because `[] == null` holds.
- `flattenIt(true, …)` emits directories with `contents` null; searching or
  flattening such a view again raises a `TypeError` (`FlattenNested`).
- `searchMany` with no hit returns `false` and leaves the view as it was
  (though `getFiles` has by then copied the original into it).

## Model

| member | source | states |
|---|---|---|
| `Paths.RTrimSlash` | src/FileBrowser.php:75 | the result is a prefix of the path, does not end in '/', and only slashes were dropped |
| `Paths.Basename` | src/File.php:67 | no ensures; see `Paths.BasenameIsLastComponent` and `Paths.BasenameOfName` |
| `Paths.Extension` | src/File.php:69-73 | no ensures; see `Paths.ExtensionIsLastSuffix` and `Paths.ExtensionOf` |
| `Paths.Join` | src/FileBrowser.php:82 | no ensures; see `Paths.JoinSplits` |
| `Paths.BasenameIsLastComponent` | src/File.php:67 | the base name holds no slash and is the last component of the path with trailing slashes dropped |
| `Paths.Dirname` | src/File.php:68 | `dirname` is unset only for the empty path, and otherwise ends in no slash unless it is "/" or "." |
| `Paths.ExtensionIsLastSuffix` | src/File.php:69-73 | the extension holds no dot, is '' for a name without a dot, and is what follows the last dot otherwise |
| `Paths.ExtensionOf` | src/File.php:69-73 | `stem.ext` has extension `ext`; a name with no dot has extension '' |
| `Paths.BasenameOfName` | src/FileBrowser.php:82 | `basename` of a listed name (non-empty, no slash) is the name itself |
| `Paths.JoinSplits` | src/FileBrowser.php:82 | the child path `rtrim(dir).'/'.name` has base name `name` and dirname the trimmed parent ("/" for the root) |
| `FileEntry.TypeName` | src/File.php:22-26 | every `handle_type` recorded is one of the five `File::` constants |
| `FileEntry.TypeNameInjective` | src/File.php:22-26 | distinct kinds are recorded as distinct constants, so an entry has exactly one |
| `FileEntry.Classify` | src/File.php:55-65 | the probe that leads to the recorded kind answers yes (`Unknown` needs none) |
| `FileEntry.ClassifyFirst` | src/File.php:55-65 | no kind probed earlier in the order link, directory, executable, file, unknown answers yes: first match wins |
| `FileEntry.ClassifyUnique` | src/File.php:55-65 | exactly one kind satisfies the first-match rule |
| `FileEntry.ClassifyPrecedence` | src/File.php:55-65 | a link to a directory is a link; an executable regular file is executable, not file |
| `FileEntry.DirnameOf` | src/File.php:68 | `directory` is null exactly for the empty path |
| `FileEntry.File.ClassifyProbes` | src/File.php:55-65 | the `if`/`elseif` chain returns exactly the first-match kind `Classify` gives |
| `FileEntry.Describe` | src/File.php:50-79 | no ensures; see `FileEntry.File.ParseFile`, `FileEntry.AttrsAt` and `FileEntry.AttrsAtDirectory` |
| `FileEntry.Properties` | src/File.php:34-37 | no ensures; see `FileEntry.PropertiesKeys` |
| `FileEntry.PropertiesKeys` | src/File.php:34-37 | the attribute array reads back `full_path`, `handle_type`, `file_name` and `file_type` as assigned, and holds `directory` and `file_size` exactly when they are not null |
| `FileEntry.AttrsAt` | src/File.php:28-79 | an entry records `full_path` as given, `file_name` its base name, `handle_type` its first-match kind, `file_type` its extension, and `file_size` exactly when `lstat` succeeds |
| `FileEntry.AttrsAtDirectory` | src/File.php:68 | a non-empty path records its `dirname` as `directory` |
| `FileEntry.File.constructor` | src/File.php:28-32 | `full_path` is the argument, and every other field is what `parseFile` records for it |
| `FileEntry.File.ParseFile` | src/File.php:50-79 | leaves `full_path` alone and assigns kind, name, directory, extension, size, times and MIME type as probing `full_path` reports them |
| `Query.Search` | src/FileBrowser.php:135-154 | the search result is never longer than its input and can again be searched all the way down |
| `Query.Matches` | src/FileBrowser.php:146-147 | no ensures; see `Query.SearchLeaf` and `Query.SearchKeepsLeaf` |
| `Query.SearchLeaf` | src/FileBrowser.php:145-150 | a non-directory entry survives iff the key is set and equals the value exactly or the value is `*` |
| `Query.SearchDir` | src/FileBrowser.php:140-144 | a directory is always kept, its contents replaced by their search, even when that is empty |
| `Query.SearchAppend` | src/FileBrowser.php:137-153 | searching a concatenation concatenates the searches: survivors keep their relative order |
| `Query.SearchKeepsLeaf` | src/FileBrowser.php:146-150 | a non-directory entry is in the result iff it is in the input and matches |
| `Query.SearchKeepsDirs` | src/FileBrowser.php:140-144 | every input directory is in the result with searched contents, and every result directory comes from one |
| `Query.SearchIdempotent` | src/FileBrowser.php:129-154 | searching the view again for the same key and value changes nothing |
| `Query.SearchCommutes` | src/FileBrowser.php:129-133 | two chained searches give the same tree in either order |
| `Query.DoSearch` | src/FileBrowser.php:135-154 | `dosearch` fails exactly on a null `contents` below, and otherwise returns the search, whatever `recursive` is |
| `Query.SearchAll` | src/FileBrowser.php:165-173 | the concatenated hits hold an array in every directory, so they can again be searched all the way down |
| `Query.SearchAllSingleton` | src/FileBrowser.php:165-173 | one value gives exactly the hits of `dosearch` for it |
| `Query.SearchAllAppend` | src/FileBrowser.php:168-173 | hits are concatenated in the order of the values |
| `Query.SearchAllLength` | src/FileBrowser.php:168-173 | no dedup: the result length is the sum of the individual hit counts |
| `Query.SearchAllEmpty` | src/FileBrowser.php:174-175 | the hits are empty iff no single value has a hit |
| `Query.SearchAllRepeats` | src/FileBrowser.php:168-173 | a value given twice repeats its hits |
| `Query.Flatten` | src/FileBrowser.php:206-225 | the flattening holds no nested directory, and without directories only non-directory entries |
| `Query.FlattenAppend` | src/FileBrowser.php:208-224 | flattening a concatenation concatenates the flattenings, in input order |
| `Query.FlattenDir` | src/FileBrowser.php:210-219 | a directory is emitted after all its descendants, with `contents` null, only when directories are included |
| `Query.FlattenLeaf` | src/FileBrowser.php:220-222 | a non-directory entry is emitted as it is |
| `Query.LeavesOfFlatten` | src/FileBrowser.php:210-219 | removing the directories from `flattenIt(true, T)` gives exactly `flattenIt(false, T)` |
| `Query.FlattenContents` | src/FileBrowser.php:206-225 | `flattenIt(false, T)` holds each non-directory descendant as often as T does; with directories, one more entry per directory |
| `Query.FlattenNested` | src/FileBrowser.php:215-219 | a flattening can be searched or flattened again iff it holds no emptied directory |
| `Query.FlattenFlat` | src/FileBrowser.php:220-222 | a sequence without directories flattens to itself |
| `Query.FlattenIdempotent` | src/FileBrowser.php:189-197 | flattening without directories twice gives the same view as once |
| `Query.FlattenOfSearch` | src/FileBrowser.php:140-144 | since directories are always kept, flattening a search equals searching the flattening |
| `Query.FlattenIt` | src/FileBrowser.php:206-225 | `flattenIt` fails exactly on a null `contents` below, and otherwise returns the depth-first flattening |
| `Builder.WithoutDots` | src/FileBrowser.php:80 | no `.` or `..` is left, and a name is kept iff it was listed and is neither |
| `Builder.WithoutDotsSingle` | src/FileBrowser.php:80 | a single name is dropped iff it is `.` or `..` |
| `Builder.WithoutDotsAppend` | src/FileBrowser.php:80 | filtering a concatenation concatenates the filtered parts, so listing order and repeats are kept |
| `FileSystem.ScanDir` | src/FileBrowser.php:80 | `scandir` lists a path iff it is non-empty and listable |
| `Builder.Children` | src/FileBrowser.php:80 | a directory is walked iff it can be listed, and none of its walked names is `.` or `..` |
| `Builder.Tree` | src/FileBrowser.php:68-92 | a tree is built only for a base path that trims to a non-empty, listable directory; see `Builder.TreeShape` for the rest |
| `Builder.Child` | src/FileBrowser.php:81-89 | no ensures; see `Builder.ChildShape` |
| `Builder.Build` | src/FileBrowser.php:81-89 | a successful build has one entry per walked name |
| `Builder.ChildShape` | src/FileBrowser.php:82-88 | a child carries the attributes of its joined path, is a directory iff classified so, then holding the tree built below it |
| `Builder.BuildShape` | src/FileBrowser.php:81-89 | the build succeeds iff every child does, and its entries are the children's, in order |
| `Builder.TreeShape` | src/FileBrowser.php:68-92 | `buildFiles` fails iff some directory on the way cannot be listed (or trims to the empty path); otherwise one entry per listed name, descending into exactly the directories |
| `Builder.TreeOfSlashes` | src/FileBrowser.php:75-80 | a base path made only of slashes trims to '', which `scandir` refuses, so it is never built |
| `Builder.TreeNested` | src/FileBrowser.php:84-88 | a built tree holds an array in every directory, so it can be searched and flattened |
| `Builder.EntryAttrs` | src/FileBrowser.php:82-83 | a built entry records the listed name, the joined path and its parent; it is a directory iff `handle_type` says so, and never a link |
| `Builder.TreeEntries` | src/FileBrowser.php:75-88 | no entry for `.` or `..`; each child's path is `rtrim(path).'/'.name` and its `directory` the trimmed parent; only directories, never links, are descended into |
| `Browser.FileBrowser.constructor` | src/FileBrowser.php:51-60 | the original is the built tree, there is no working view, and the tree can be queried |
| `Browser.FileBrowser.BuildFiles` | src/FileBrowser.php:68-92 | the loop builds exactly the tree of the path, failing exactly where a directory cannot be listed, and records it as `file_index` |
| `Browser.FileBrowser.BuildChild` | src/FileBrowser.php:81-89 | one pass of the loop yields the child's entry, built below it when it is a directory |
| `Browser.FileBrowser.GetFiles` | src/FileBrowser.php:245-251 | returns the working view, or the original when there is none, and makes that the working view |
| `Browser.FileBrowser.Reset` | src/FileBrowser.php:257-260 | there is no working view afterwards |
| `Browser.FileBrowser.Get` | src/FileBrowser.php:233-238 | returns the current view and clears it (consume once) |
| `Browser.FileBrowser.Search` | src/FileBrowser.php:129-133 | the working view becomes the search of the current view; a null `contents` leaves it unchanged |
| `Browser.FileBrowser.SearchMany` | src/FileBrowser.php:165-180 | with hits, the view becomes their concatenation over the same current view; with none, `false` and the view unchanged |
| `Browser.FileBrowser.Flatten` | src/FileBrowser.php:189-197 | the view becomes the flattening of the argument, or of the current view when the argument is null or empty |
| `Browser.FileBrowser.Count` | src/FileBrowser.php:265-268 | the flatten that `count()` runs before PHP 8 aborts it: the view becomes its flattening without directories, and `flattened` says whether that completed |
| `Browser.FileBrowser.IntendedCount` | src/FileBrowser.php:262-264 | the documented count is the number of non-directory entries of the view |
| `Query.PushAll` | src/FileBrowser.php:170-172 | the `array_push` loop appends every item, in order |
| `Browser.GetTwice` | src/FileBrowser.php:233-260 | two `get` calls in a row return the view, then the untouched original |
| `Browser.SearchTwice` | src/FileBrowser.php:129-133 | from any view, searches chain on the current view and commute; `get` then starts over from the original |
| `Browser.FlattenTwice` | src/FileBrowser.php:189-225 | from any view, flattening twice fails iff directories were included and the view had one; without them the second leaves the view unchanged |
| `Scenario.SampleFlatten` | src/FileBrowser.php:206-225 | a root holding a file, a link and a directory with one file flattens to the three non-directories, then the directory when included |
| `Scenario.SampleSearch` | src/FileBrowser.php:135-180 | searching `txt` in that tree keeps the file and the directory with its file, drops the link, and two equal values repeat the hits |

## Left out

- The threaded indexer (`src/FileIndexer.php`), `buildIndex` and the pthreads branch of the constructor: they depend on threads and are not part of this model.
- `testrun.php`: a timing script, not part of this model.
- Real filesystem calls (`scandir`, `lstat`, the `is_*` probes, `mime_content_type`): their answers are the data of `FileSystem.Fs`; the size, times and MIME type are opaque values.
- `getContents` (`file_get_contents`): reading a file's bytes is I/O.
- `dump` and the `printf` diagnostics of `buildFiles`: output formatting only.
- The dynamic `__get`/`__set` of `File`: replaced by typed fields and one attribute map.
- The return value of `count()`: it is PHP's `count` of the browser object that `flatten` returns, not a file count. On PHP 8 that raises a TypeError, because the class is not `Countable`; PHP 7.2–7.4 return 1 with a warning. Only the flatten that runs first is modelled (`Browser.FileBrowser.Count`, whose `flattened` result says whether that flatten completed, not whether `count()` returned), and the documented intent is `IntendedCount`.
- The tree shape `buildFiles` really produces: it pushes a directory's child list as a sibling array just before the directory's `File` object, and the queries index entries as arrays keyed `type`/`contents`, which a `File` object is not. The model uses one consistent shape, `Dir(attrs, contents)`, on which both the builder and the queries work; whether an entry is a directory is the constructor rather than a `type` key.
- `Browser.FileBrowser.constructor`: requires the build to succeed, because a Dafny constructor cannot raise; the `TypeError` of an unlistable directory is modelled by `BuildFiles`' `ok` result.
- `FileSystem.Wf`: listed names are non-empty and hold no slash, as a directory listing's names do; it is what lets the recursion of `buildFiles` terminate.
- Symlink cycles and recursion depth: links are never descended into, and nothing else about cycles or stack depth is modelled.
- `search`'s `recursive` parameter is accepted and has no effect, as in the code.
- `Builder.Tree`, `Builder.TreeShape`, `Builder.TreeOfSlashes`, `Browser.FileBrowser.BuildFiles`: they follow PHP 8 or later, where an unlistable directory or the empty path aborts the build (the `TypeError` of `array_diff`, the `ValueError` of `scandir('')`, both recorded as the one outcome `TypeError`). On PHP 7, `array_diff(false, …)` warns and returns `null`, `foreach` over `null` warns and runs zero times, so such a directory contributes an empty list and the build goes on; that behaviour is not modelled.
