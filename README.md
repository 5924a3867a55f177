# Import files from a directory into the asset store

A Dafny model of the SilverStripe build task `ImportFilesFromDirectoryTask`.
The build task walks a directory under the public `assets` folder. Each regular file
becomes a file record in the CMS asset store, placed in a folder that mirrors
the file's subdirectory. A file that already has a record with the same name
in that folder is skipped. Each new record is written and then published.

The model has three modules, one per piece of logic in
`src/Task/ImportFilesFromDirectoryTask.php`:

- `paths.dfy` (module `Paths`) covers the path mapping inside the loop
  (lines 93-106). It is pure string computation. PHP's `basename`, `dirname`,
  `str_replace` and string truthiness are written out as functions: `FileName`,
  `FileDir`, `RemoveAll` and `Truthy`. `RelativePath` and `TargetFolderPath`
  follow the source's two `if`s.
- `walker.dfy` (module `Walker`) covers `getFilesRecursively` (lines 152-175).
  - The directory is an abstract tree. A directory is the sequence of its
    entries in listing order, and "." and ".." appear as ordinary entries.
  - `ListFiles` is the imperative loop with its recursion. It is proved equal
    to the specification function `Listing`.
  - Lemmas prove that every path starts with `dir/` and that no dot entry is
    listed. They also prove that the listing holds exactly the files reached at
    every depth (`Reaches`) and that its length is the number of leaf files.
- `import.dfy` (module `Import`) covers `run` (lines 56-144).
  - The asset store is the class `AssetStore`. Its fields are a set of folder
    paths and a sequence of file records, each naming its folder by path.
    `FindOrMakeFolder`, `Write` and `Publish` update those fields in place.
  - `ImportFile` is the loop body (lines 92-137). It calls `ImportRecord`, the
    lookup-and-write part (lines 108-137). `ImportAll` is the `foreach` with
    its two counters.
  - `Step` (one file) and `RunFiles` (the fold over all files) are the
    specification functions for those methods. `Run` is proved equal to
    `RunTask`.
  - Lemmas over these functions prove:
    - the skip rule and the reported summary figures;
    - that a file name is never duplicated within a folder during a run;
    - that re-running after an error-free run changes nothing.

Whether the store throws for a given file is an outside answer. It is given by
`oracle: nat -> Attempt`, indexed by the file's position in the listing:

- `Succeeds`;
- `FailsBeforeWrite`: an exception in `new File`/`setFromLocalFile`, so no
  record is stored;
- `FailsAfterWrite`: `publishSingle` throws after `write`, so an unpublished
  record stays in the store and later lookups see it.

Points where the code's behaviour is easy to misread:

- `str_replace` (line 99) removes every occurrence of `basePath/` in the
  directory, not only a leading one. `RemoveAll` models this, and
  `ReplaceAllRemovesLaterOccurrences` shows a directory `/b/x/b/y` under base
  `/b` landing in `import/xy`.
- The target falls back to `importDir` (lines 103-106) when the relative
  directory is empty, when it is the PHP-falsy string "0", or when it equals
  the base path. `ZeroDirMapsToImportDir` shows the "0" case.
- When `importDir` ends in '/', so does the base path. A file directly in the
  base directory then keeps a non-empty relative path, because `dirname`
  drops the slashes before the name but `str_replace` looks for the base path
  followed by one more '/'. `TrailingSlashBaseExample` shows a file in base
  `/i/` landing in folder `i///i`.
- Files are processed in the order `scandir` returns them. The model keeps the
  order of the tree's entries, and which of two same-named files in one target
  folder is imported depends on it.
- A second run over an unchanged directory creates no record only if the first
  run had no error that left a file unrecorded. `RerunImportsNothing` requires
  an error-free first run.

## Model

| member | source | states |
|---|---|---|
| Paths.NameStart | src/Task/ImportFilesFromDirectoryTask.php:93 | the split point for `basename` lies within the path |
| Paths.NameStartSpec | src/Task/ImportFilesFromDirectoryTask.php:93 | the split point is just after a '/', and no '/' follows it |
| Paths.FileName | src/Task/ImportFilesFromDirectoryTask.php:93 | `basename`: the text after the last '/' (its properties are stated in `SplitAtLastSlash`) |
| Paths.TrimSlashes | src/Task/ImportFilesFromDirectoryTask.php:96 | dropping the trailing slashes never makes the string longer |
| Paths.TrimSlashesSpec | src/Task/ImportFilesFromDirectoryTask.php:96 | the trimmed string is a prefix that is empty or ends in a character other than '/', and everything dropped is '/' |
| Paths.FileDir | src/Task/ImportFilesFromDirectoryTask.php:96 | `dirname`: "." without a '/', "/" when only slashes precede the name, otherwise the text before the run of slashes before the name (its properties are stated in `SplitAtLastSlash`) |
| Paths.SplitAtLastSlash | src/Task/ImportFilesFromDirectoryTask.php:93-96 | `basename` holds no '/' and is a suffix of the path; a path without '/' has dirname "." and is its own basename; otherwise the basename is shorter than the path, and the dirname is either "/" with only slashes before the name, or a prefix not ending in '/' followed by the run of slashes before the name |
| Paths.JoinName | src/Task/ImportFilesFromDirectoryTask.php:93 | the basename of `dir/item` is `item` when the item is a non-empty name without '/' |
| Paths.SplitJoin | src/Task/ImportFilesFromDirectoryTask.php:93-96 | for a non-empty dir not ending in '/', `basename` and `dirname` of `dir/item` give back `item` and `dir` |
| Paths.RemoveAll | src/Task/ImportFilesFromDirectoryTask.php:99 | `str_replace` with an empty replacement never makes the string longer |
| Paths.RemoveAllUnchangedIff | src/Task/ImportFilesFromDirectoryTask.php:99 | the replacement leaves the directory unchanged exactly when `basePath/` is empty or does not occur in it; when it does occur, the result is strictly shorter |
| Paths.RemoveAllFirst | src/Task/ImportFilesFromDirectoryTask.php:99 | when the first occurrence of `basePath/` starts right after `u`, the replacement keeps `u`, drops that occurrence and continues on the rest |
| Paths.RemoveAllLeading | src/Task/ImportFilesFromDirectoryTask.php:99 | a leading `basePath/` is removed, and the rest is kept when `basePath/` does not occur in it |
| Paths.RemoveAllExample | src/Task/ImportFilesFromDirectoryTask.php:99 | all occurrences are removed: `/b/x/b/y` with `/b/` removed is `xy` |
| Paths.RelativePath | src/Task/ImportFilesFromDirectoryTask.php:96-100 | the relative directory is the dirname with every `basePath/` removed (its properties are stated in `RemoveAllUnchangedIff`, `RemoveAllFirst` and `RemoveAllLeading`) |
| Paths.TargetFolderPath | src/Task/ImportFilesFromDirectoryTask.php:103-106 | the target is `importDir`, or `importDir/` plus a truthy relative path that differs from the base path (stated in `TargetFolderPathShape`) |
| Paths.TargetFolderPathShape | src/Task/ImportFilesFromDirectoryTask.php:103-106 | the target is `importDir`, or `importDir/` followed by a sub-path that is neither "", "0" nor the base path |
| Paths.RootFileMapsToImportDir | src/Task/ImportFilesFromDirectoryTask.php:96-106 | a file whose dirname is the base path lands in `importDir` with no sub-path |
| Paths.RootEntryMapsToImportDir | src/Task/ImportFilesFromDirectoryTask.php:93-106 | for a base path not ending in '/', `basePath/name` maps to file name `name` in folder `importDir` |
| Paths.NestedFileMapsToSubfolder | src/Task/ImportFilesFromDirectoryTask.php:93-106 | `basePath/rel/name` maps to `name` in `importDir/rel` when `rel` is truthy, does not end in '/', differs from the base path and does not contain `basePath/` again |
| Paths.ZeroDirMapsToImportDir | src/Task/ImportFilesFromDirectoryTask.php:103-106 | files in a first-level subdirectory named "0" land in `importDir`, because "0" is falsy |
| Paths.ReplaceAllRemovesLaterOccurrences | src/Task/ImportFilesFromDirectoryTask.php:96-106 | with base `/b`, the file `/b/x/b/y/f.jpg` maps to folder `import/xy` |
| Paths.TrailingSlashBaseExample | src/Task/ImportFilesFromDirectoryTask.php:96-106 | with `importDir` "i/" and base `/i/`, the file `/i//f` in the base directory maps to folder `i///i`, not to `importDir` |
| Walker.ListFiles | src/Task/ImportFilesFromDirectoryTask.php:152-175 | the loop with its recursion returns exactly `Listing(dir, entries)` |
| Walker.Listing | src/Task/ImportFilesFromDirectoryTask.php:152-175 | the listed paths, depth first in entry order (their properties are stated in `ListingExact`, `ListingPrefix`, `ListingNamesNoDots` and `ListingLength`) |
| Walker.ListingPrefix | src/Task/ImportFilesFromDirectoryTask.php:163-170 | every returned path starts with `dir/` |
| Walker.ListingNamesNoDots | src/Task/ImportFilesFromDirectoryTask.php:158-163 | in a tree of proper names, no returned path ends in "." or ".."; each ends in a non-empty, slash-free name |
| Walker.ListingExact | src/Task/ImportFilesFromDirectoryTask.php:152-175 | a path is returned if and only if it is a non-dot file reached through non-dot directories at some depth |
| Walker.ListingLength | src/Task/ImportFilesFromDirectoryTask.php:152-175 | the number of returned paths equals the number of leaf files in the tree |
| Walker.ReachesCons | src/Task/ImportFilesFromDirectoryTask.php:158-171 | a file is reached through a directory's entries exactly when it is reached through the first entry or through the rest |
| Import.Keys | src/Task/ImportFilesFromDirectoryTask.php:91-106 | one (name, target folder) key per listed file |
| Import.FileKey | src/Task/ImportFilesFromDirectoryTask.php:93-106 | a path's key is its basename and its target folder (their properties are stated in the `Paths` lemmas) |
| Import.HasFile | src/Task/ImportFilesFromDirectoryTask.php:109-112 | the lookup finds a record with that name whose folder is the target folder (stated through `StepSpec` and `HasFileGrows`) |
| Import.Step | src/Task/ImportFilesFromDirectoryTask.php:109-136 | one file's branch and the store it leaves (stated in `StepSpec`) |
| Import.RunTask | src/Task/ImportFilesFromDirectoryTask.php:56-144 | the whole task as a function of the store, the tree and the oracle (stated in `RunTaskReport` and, for the method, in `Run`) |
| Import.Count | src/Task/ImportFilesFromDirectoryTask.php:132-136 | a branch count is at most the number of files, and zero exactly when no file took that branch |
| Import.AssetStore.FindOrMakeFolder | src/Task/ImportFilesFromDirectoryTask.php:73 | afterwards the folder exists; records are unchanged |
| Import.AssetStore.Write | src/Task/ImportFilesFromDirectoryTask.php:123-126 | appends one unpublished record with the file's name and folder, whose id is its index |
| Import.AssetStore.Publish | src/Task/ImportFilesFromDirectoryTask.php:129 | only that record changes, and it becomes published |
| Import.StepSpec | src/Task/ImportFilesFromDirectoryTask.php:109-136 | the target folder is made; a file is skipped exactly when a record with its name sits in its folder; a skip adds no record; an import adds exactly one published record; an error adds none or one unpublished record; afterwards an imported or skipped file has its record |
| Import.ImportRecord | src/Task/ImportFilesFromDirectoryTask.php:109-136 | the lookup, find-or-make, write and publish calls change the store and choose the branch as `Step` says |
| Import.ImportFile | src/Task/ImportFilesFromDirectoryTask.php:92-137 | one loop iteration: the path is mapped to its key, then imported as `Step` says |
| Import.RunFiles | src/Task/ImportFilesFromDirectoryTask.php:88-138 | the loop records one branch per file |
| Import.RunFilesLast | src/Task/ImportFilesFromDirectoryTask.php:91-138 | the last file is processed from the store the earlier files left, and the counter of its branch goes up by one |
| Import.RunFilesNext | src/Task/ImportFilesFromDirectoryTask.php:91-138 | processing one more file extends the run by one `Step` |
| Import.ImportAll | src/Task/ImportFilesFromDirectoryTask.php:88-138 | the `foreach` leaves the store and the two counters that `RunFiles` gives |
| Import.Run | src/Task/ImportFilesFromDirectoryTask.php:56-144 | the whole task changes the store and reports as `RunTask` says |
| Import.RunTaskReport | src/Task/ImportFilesFromDirectoryTask.php:56-144 | a missing base directory is reported and changes nothing; otherwise the import folder exists and no record is lost; "no files" is reported exactly for an empty listing; in a summary the three figures add up to the file count, and skipped is non-negative and counts the skip branches |
| Import.RunCounts | src/Task/ImportFilesFromDirectoryTask.php:132-136 | `imported` and `errors` are the numbers of files that took the import and the error branch |
| Import.CountPartition | src/Task/ImportFilesFromDirectoryTask.php:114-136 | every file takes exactly one of the three branches |
| Import.SkippedReport | src/Task/ImportFilesFromDirectoryTask.php:143 | `imported + errors <= count(files)`, and `count(files) - imported - errors` is the number of skipped files |
| Import.RunGrows | src/Task/ImportFilesFromDirectoryTask.php:91-138 | a run only adds folders and appends records |
| Import.HasFileGrows | src/Task/ImportFilesFromDirectoryTask.php:109-112 | once the lookup finds a record, it keeps finding it as records are appended |
| Import.RunPrefix | src/Task/ImportFilesFromDirectoryTask.php:91-138 | the first j files take the same branches as in the whole run, and leave a store contained in the final one |
| Import.RunOutcomeAt | src/Task/ImportFilesFromDirectoryTask.php:91-138 | the k-th file's branch is decided against the store left by the first k files |
| Import.RecordedAfterRun | src/Task/ImportFilesFromDirectoryTask.php:109-132 | an imported or skipped file has its folder and a record with its name in that folder at the end of the run |
| Import.SameRunDuplicateSkipped | src/Task/ImportFilesFromDirectoryTask.php:109-117 | once a file with a given name and folder is imported or found, every later file with that name and folder is skipped |
| Import.RunAddsDistinctRecords | src/Task/ImportFilesFromDirectoryTask.php:109-126 | each record a run adds differs in name or folder from every record before it, so same-named files in one folder add at most one record |
| Import.RunKeepsNoDuplicates | src/Task/ImportFilesFromDirectoryTask.php:109-126 | a store without duplicate (name, folder) records keeps that property through a run |
| Import.RunOverPresentIsNoop | src/Task/ImportFilesFromDirectoryTask.php:109-117 | when every file already has its folder and record, all files are skipped and the store is unchanged |
| Import.RerunImportsNothing | src/Task/ImportFilesFromDirectoryTask.php:109-117 | after an error-free run, running again over the same files imports nothing, reports no error, skips every file and changes nothing, whatever the store would answer |

## Left out

- Console output (`echo` of progress lines and the summary) is not modelled. The model reports the counters as a `RunOutcome` value instead.
- `Config::inst()->get` and `Director::publicFolder()` (lines 58-59) are not modelled. `importDir` and `basePath` are parameters, and the relation `basePath = publicFolder/assets/importDir` is not required.
- `is_dir` and `scandir` are replaced by an abstract tree: `None` for a missing base directory, otherwise the entries in listing order. Symbolic links, special files and `scandir` failures are not modelled.
- PHP's `basename` and `dirname` also ignore trailing slashes of the whole path. The model splits at the last '/', and `FileDir` drops the run of slashes before the name as `dirname` does. Paths built by the walker from slash-free names never end in '/'.
- `Folder::find_or_make` adds exactly the given path to the set of folders. Its creation of ancestor folders and its path normalisation are not modelled. A record's `ParentID` is modelled as the folder path.
- The `if ($folder)` check after the first `find_or_make` (line 74) only prints, so it is not modelled.
- Failures inside the try block other than in `new File`, `setFromLocalFile`, `write` and `publishSingle` are not modelled. These include a throw from `find_or_make` or from the lookup query. Such a failure counts as an error without changing records, as `FailsBeforeWrite` does, except that the model still adds the folder.
- The content of the imported file and the record's other fields (ID, title, hash) are not modelled.
- The `HTTPRequest` parameter and the build-task/command-line surface are not modelled.
- The target folders are not in general the relative subdirectories: `str_replace`, the "0" case and a base path ending in '/' break it. The per-path lemmas above state what does hold, so no lemma claims it for all trees.
