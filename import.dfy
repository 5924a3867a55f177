/**
 * The import driver (`run`): for every listed file, resolve the
 * target folder, skip the file when a record of the same name already sits
 * in that folder, otherwise create, write and publish a record.
 *
 * The asset store is abstract: a set of folder paths and the sequence of
 * file records, each naming its parent folder by path. Whether creating,
 * writing or publishing the i-th file fails is an outside answer, the
 * `oracle`, standing in for the exceptions the store may throw.
 */
module Import {
  import opened Paths
  import opened Walker

  datatype Option<T> = None | Some(value: T)

  /** A file record: its name, the path of its parent folder, and whether it is published. */
  datatype Record = Record(name: string, folder: string, published: bool)

  /** What the duplicate check compares: a file name and a target folder path. */
  datatype Key = Key(name: string, folder: string)

  /**
   * How the store answers the create/write/publish sequence for one file:
   * all succeed, something throws before `write` stores the record, or
   * `publishSingle` throws after the record was written.
   */
  datatype Attempt = Succeeds | FailsBeforeWrite | FailsAfterWrite

  /** The branch one file takes in the loop. */
  datatype FileOutcome = Imported | Skipped | Errored

  datatype StoreState = StoreState(folders: set<string>, records: seq<Record>)

  /** The loop's state after some files: the store, the two counters, and the branch each file took. */
  datatype Progress = Progress(store: StoreState, imported: nat, errors: nat, outcomes: seq<FileOutcome>)

  /** What a run reports: the early exits, or the final summary. */
  datatype RunOutcome = MissingDirectory | NoFiles | Summary(imported: nat, errors: nat, skipped: int)

  /** Lines 93-106: the file name and the target folder of a listed path. */
  function FileKey(importDir: string, basePath: string, filePath: string): Key {
    Key(FileName(filePath), TargetFolderPath(importDir, basePath, filePath))
  }

  /** The keys of all listed paths, in order. */
  function Keys(importDir: string, basePath: string, files: seq<string>): (keys: seq<Key>)
    ensures |keys| == |files|
  {
    seq(|files|, i requires 0 <= i < |files| => FileKey(importDir, basePath, files[i]))
  }

  /** The duplicate lookup (lines 109-112): some record has this name and this parent folder. */
  predicate HasFile(records: seq<Record>, key: Key) {
    exists i :: 0 <= i < |records| && records[i].name == key.name && records[i].folder == key.folder
  }

  /** No two records share a name within the same folder. */
  ghost predicate NoDuplicates(records: seq<Record>) {
    forall i, j :: 0 <= i < j < |records| ==>
      records[i].name != records[j].name || records[i].folder != records[j].folder
  }

  /** Number of files that took branch `o`. */
  function Count(outcomes: seq<FileOutcome>, o: FileOutcome): (n: nat)
    ensures n <= |outcomes|
    ensures n == 0 <==> o !in outcomes
  {
    if outcomes == [] then 0
    else
      var last := outcomes[|outcomes| - 1];
      assert outcomes == outcomes[..|outcomes| - 1] + [last];
      Count(outcomes[..|outcomes| - 1], o) + (if last == o then 1 else 0)
  }

  /** The asset store, which the import changes in place. */
  class AssetStore {
    var folders: set<string>
    var records: seq<Record>

    function State(): StoreState
      reads this
    {
      StoreState(folders, records)
    }

    constructor (folders: set<string>, records: seq<Record>)
      ensures State() == StoreState(folders, records)
    {
      this.folders := folders;
      this.records := records;
    }

    /** `Folder::find_or_make`: afterwards the folder exists; no record changes. */
    method FindOrMakeFolder(path: string)
      modifies this
      ensures folders == old(folders) + {path}
      ensures records == old(records)
    {
      folders := folders + {path};
    }

    /** `setFromLocalFile` and `write`: a new, unpublished record, whose index is its id. */
    method Write(name: string, folder: string) returns (id: nat)
      modifies this
      ensures id == |old(records)|
      ensures records == old(records) + [Record(name, folder, false)]
      ensures folders == old(folders)
    {
      id := |records|;
      records := records + [Record(name, folder, false)];
    }

    /** `publishSingle`: the record with this id becomes published. */
    method Publish(id: nat)
      requires id < |records|
      modifies this
      ensures records == old(records)[id := old(records)[id].(published := true)]
      ensures folders == old(folders)
    {
      records := records[id := records[id].(published := true)];
    }
  }

  /**
   * One pass of the loop body for a file with key `key`: the new store and
   * the branch taken.
   */
  function Step(s: StoreState, key: Key, attempt: Attempt): (StoreState, FileOutcome)
  {
    var folders := s.folders + {key.folder};
    if HasFile(s.records, key) then
      (StoreState(folders, s.records), Skipped)
    else
      var added := Record(key.name, key.folder, attempt == Succeeds);
      match attempt
      case Succeeds => (StoreState(folders, s.records + [added]), Imported)
      case FailsBeforeWrite => (StoreState(folders, s.records), Errored)
      case FailsAfterWrite => (StoreState(folders, s.records + [added]), Errored)
  }

  /** What one step does. */
  lemma StepSpec(s: StoreState, key: Key, attempt: Attempt)
    ensures Step(s, key, attempt).0.folders == s.folders + {key.folder}
    ensures Step(s, key, attempt).1 == Skipped <==> HasFile(s.records, key)
    ensures Step(s, key, attempt).1 == Imported ==> Step(s, key, attempt).0.records == s.records + [Record(key.name, key.folder, true)]
    ensures Step(s, key, attempt).1 != Imported ==>
      Step(s, key, attempt).0.records == s.records || Step(s, key, attempt).0.records == s.records + [Record(key.name, key.folder, false)]
    ensures Step(s, key, attempt).0.records != s.records ==> !HasFile(s.records, key)
    ensures Step(s, key, attempt).1 != Errored ==> HasFile(Step(s, key, attempt).0.records, key)
  {
    var added := Record(key.name, key.folder, attempt == Succeeds);
    assert (s.records + [added])[|s.records|] == added;
  }

  /** The loop over files with keys `keys`, from store `s` with both counters at zero. */
  function RunFiles(s: StoreState, keys: seq<Key>, oracle: nat -> Attempt): (p: Progress)
    ensures |p.outcomes| == |keys|
    decreases |keys|
  {
    if keys == [] then Progress(s, 0, 0, [])
    else
      var k := |keys| - 1;
      var before := RunFiles(s, keys[..k], oracle);
      var r := Step(before.store, keys[k], oracle(k));
      var outcomes := before.outcomes + [r.1];
      Progress(r.0,
               before.imported + (if r.1 == Imported then 1 else 0),
               before.errors + (if r.1 == Errored then 1 else 0),
               outcomes)
  }

  /** One unfolding of `RunFiles`: the last file is a `Step` from the store the others left. */
  lemma RunFilesLast(s: StoreState, keys: seq<Key>, oracle: nat -> Attempt)
    requires keys != []
    ensures var k := |keys| - 1;
      var before := RunFiles(s, keys[..k], oracle);
      var r := Step(before.store, keys[k], oracle(k));
      RunFiles(s, keys, oracle) == Progress(r.0,
        before.imported + (if r.1 == Imported then 1 else 0),
        before.errors + (if r.1 == Errored then 1 else 0),
        before.outcomes + [r.1])
  {
  }

  /** `RunFiles` over one more file, from the progress made on the files before it. */
  lemma RunFilesNext(s: StoreState, keys: seq<Key>, oracle: nat -> Attempt, i: nat,
                     before: Progress, store: StoreState, outcome: FileOutcome)
    requires i < |keys| && RunFiles(s, keys[..i], oracle) == before
    requires (store, outcome) == Step(before.store, keys[i], oracle(i))
    ensures RunFiles(s, keys[..i + 1], oracle) == Progress(store,
      before.imported + (if outcome == Imported then 1 else 0),
      before.errors + (if outcome == Errored then 1 else 0),
      before.outcomes + [outcome])
  {
    var prefix := keys[..i + 1];
    assert prefix[..i] == keys[..i] && prefix[i] == keys[i];
    RunFilesLast(s, prefix, oracle);
  }

  /** The loop body (lines 92-137) for one file: map its path, then import it. */
  method ImportFile(store: AssetStore, importDir: string, basePath: string, filePath: string, attempt: Attempt)
    returns (outcome: FileOutcome)
    modifies store
    ensures (store.State(), outcome) == Step(old(store.State()), FileKey(importDir, basePath, filePath), attempt)
  {
    var fileName := FileName(filePath);
    var targetFolderPath := TargetFolderPath(importDir, basePath, filePath);
    outcome := ImportRecord(store, Key(fileName, targetFolderPath), attempt);
  }

  /** Lines 108-137: the duplicate check, then create, write and publish. */
  method ImportRecord(store: AssetStore, key: Key, attempt: Attempt) returns (outcome: FileOutcome)
    modifies store
    ensures (store.State(), outcome) == Step(old(store.State()), key, attempt)
  {
    store.FindOrMakeFolder(key.folder);
    if HasFile(store.records, key) {
      return Skipped;
    }
    store.FindOrMakeFolder(key.folder);
    match attempt {
      case FailsBeforeWrite =>
        outcome := Errored;
      case FailsAfterWrite =>
        var id := store.Write(key.name, key.folder);
        outcome := Errored;
      case Succeeds =>
        ghost var written := store.records;
        var id := store.Write(key.name, key.folder);
        store.Publish(id);
        assert store.records == written + [Record(key.name, key.folder, true)];
        outcome := Imported;
    }
  }

  /**
   * What `run` does to the store and what it reports, for a base directory
   * that is missing (`None`) or holds the entries `root`.
   */
  function RunTask(s: StoreState, importDir: string, basePath: string, root: Option<seq<Entry>>, oracle: nat -> Attempt)
    : (StoreState, RunOutcome)
  {
    if root.None? then (s, MissingDirectory)
    else
      var start := StoreState(s.folders + {importDir}, s.records);
      var files := Listing(basePath, root.value);
      if files == [] then (start, NoFiles)
      else
        var p := RunFiles(start, Keys(importDir, basePath, files), oracle);
        (p.store, Summary(p.imported, p.errors, |files| - p.imported - p.errors))
  }

  /** `run`: check the base directory, prepare the import folder, list the files, import each. */
  method Run(store: AssetStore, importDir: string, basePath: string, root: Option<seq<Entry>>, oracle: nat -> Attempt)
    returns (result: RunOutcome)
    modifies store
    ensures (store.State(), result) == RunTask(old(store.State()), importDir, basePath, root, oracle)
  {
    if root.None? {
      return MissingDirectory;
    }
    ghost var start := StoreState(store.folders + {importDir}, store.records);
    store.FindOrMakeFolder(importDir);
    assert store.State() == start;
    var files := ListFiles(basePath, root.value);
    if |files| == 0 {
      return NoFiles;
    }
    var imported, errors := ImportAll(store, importDir, basePath, files, oracle);
    ghost var p := RunFiles(start, Keys(importDir, basePath, files), oracle);
    assert store.State() == p.store && imported == p.imported && errors == p.errors;
    result := Summary(imported, errors, |files| - imported - errors);
  }

  /** Lines 88-138: the loop over the listed files with its two counters. */
  method ImportAll(store: AssetStore, importDir: string, basePath: string, files: seq<string>, oracle: nat -> Attempt)
    returns (imported: nat, errors: nat)
    modifies store
    ensures var p := RunFiles(old(store.State()), Keys(importDir, basePath, files), oracle);
      store.State() == p.store && imported == p.imported && errors == p.errors
  {
    ghost var start := store.State();
    ghost var keys := Keys(importDir, basePath, files);
    ghost var outcomes: seq<FileOutcome> := [];
    imported, errors := 0, 0;
    assert keys[..0] == [];
    for i := 0 to |files|
      invariant RunFiles(start, keys[..i], oracle) == Progress(store.State(), imported, errors, outcomes)
    {
      ghost var before := Progress(store.State(), imported, errors, outcomes);
      assert keys[i] == FileKey(importDir, basePath, files[i]);
      var outcome := ImportFile(store, importDir, basePath, files[i], oracle(i));
      RunFilesNext(start, keys, oracle, i, before, store.State(), outcome);
      if outcome == Imported {
        imported := imported + 1;
      } else if outcome == Errored {
        errors := errors + 1;
      }
      outcomes := outcomes + [outcome];
    }
    assert keys[..|files|] == keys;
  }

  /** The two counters are the numbers of files that took the import and the error branch. */
  lemma {:induction false} RunCounts(s: StoreState, keys: seq<Key>, oracle: nat -> Attempt)
    ensures var p := RunFiles(s, keys, oracle);
      p.imported == Count(p.outcomes, Imported) && p.errors == Count(p.outcomes, Errored)
    decreases |keys|
  {
    if keys != [] {
      var k := |keys| - 1;
      RunCounts(s, keys[..k], oracle);
      RunFilesLast(s, keys, oracle);
      var before := RunFiles(s, keys[..k], oracle);
      var outcomes := RunFiles(s, keys, oracle).outcomes;
      assert outcomes[..k] == before.outcomes;
    }
  }

  /** Every file takes exactly one of the three branches. */
  lemma {:induction false} CountPartition(outcomes: seq<FileOutcome>)
    ensures Count(outcomes, Imported) + Count(outcomes, Errored) + Count(outcomes, Skipped) == |outcomes|
  {
    if outcomes != [] {
      CountPartition(outcomes[..|outcomes| - 1]);
    }
  }

  /**
   * The reported "skipped" figure, `count(files) - imported - errors`, is
   * never negative and is the number of files that took the skip branch.
   */
  lemma SkippedReport(s: StoreState, keys: seq<Key>, oracle: nat -> Attempt)
    ensures var p := RunFiles(s, keys, oracle);
      p.imported + p.errors <= |keys| &&
      |keys| - p.imported - p.errors == Count(p.outcomes, Skipped)
  {
    RunCounts(s, keys, oracle);
    CountPartition(RunFiles(s, keys, oracle).outcomes);
  }

  /**
   * What `run` reports: a missing base directory is reported as such and
   * leaves the store untouched; otherwise the import folder exists
   * afterwards, no record is lost, and the summary's three figures add up
   * to the number of listed files, the skipped figure being the number of
   * files that took the skip branch.
   */
  lemma RunTaskReport(s: StoreState, importDir: string, basePath: string, root: Option<seq<Entry>>, oracle: nat -> Attempt)
    ensures var r := RunTask(s, importDir, basePath, root, oracle);
      (r.1 == MissingDirectory <==> root.None?) &&
      (root.None? ==> r.0 == s) &&
      (root.Some? ==> importDir in r.0.folders && s.folders <= r.0.folders && s.records <= r.0.records) &&
      (r.1 == NoFiles <==> root.Some? && Listing(basePath, root.value) == []) &&
      (r.1.Summary? ==>
        var files := Listing(basePath, root.value);
        var p := RunFiles(StoreState(s.folders + {importDir}, s.records), Keys(importDir, basePath, files), oracle);
        r.1.skipped >= 0 && r.1.imported + r.1.errors + r.1.skipped == |files| &&
        r.1.skipped == Count(p.outcomes, Skipped))
  {
    if root.Some? {
      var start := StoreState(s.folders + {importDir}, s.records);
      var files := Listing(basePath, root.value);
      var keys := Keys(importDir, basePath, files);
      RunGrows(start, keys, oracle);
      SkippedReport(start, keys, oracle);
    }
  }

  /** A run only adds folders and appends records. */
  lemma {:induction false} RunGrows(s: StoreState, keys: seq<Key>, oracle: nat -> Attempt)
    ensures var p := RunFiles(s, keys, oracle);
      s.folders <= p.store.folders && s.records <= p.store.records
    decreases |keys|
  {
    if keys != [] {
      var k := |keys| - 1;
      RunGrows(s, keys[..k], oracle);
      RunFilesLast(s, keys, oracle);
      var before := RunFiles(s, keys[..k], oracle).store;
      StepSpec(before, keys[k], oracle(k));
    }
  }

  /** Records are only ever appended: a lookup that succeeds keeps succeeding. */
  lemma HasFileGrows(a: seq<Record>, b: seq<Record>, key: Key)
    requires a <= b && HasFile(a, key)
    ensures HasFile(b, key)
  {
    var i :| 0 <= i < |a| && a[i].name == key.name && a[i].folder == key.folder;
    assert b[i] == a[i];
  }

  /** Running over a prefix of the files is a prefix of the run. */
  lemma {:induction false} RunPrefix(s: StoreState, keys: seq<Key>, oracle: nat -> Attempt, j: nat)
    requires j <= |keys|
    ensures var whole := RunFiles(s, keys, oracle);
      var part := RunFiles(s, keys[..j], oracle);
      part.outcomes == whole.outcomes[..j] &&
      part.store.folders <= whole.store.folders && part.store.records <= whole.store.records
    decreases |keys|
  {
    if j < |keys| {
      var k := |keys| - 1;
      var prefix := keys[..k];
      assert prefix[..j] == keys[..j];
      RunPrefix(s, prefix, oracle, j);
      RunFilesLast(s, keys, oracle);
      var before := RunFiles(s, prefix, oracle);
      var whole := RunFiles(s, keys, oracle);
      var part := RunFiles(s, keys[..j], oracle);
      var r := Step(before.store, keys[k], oracle(k));
      assert whole.store == r.0 && whole.outcomes == before.outcomes + [r.1];
      assert whole.outcomes[..j] == before.outcomes[..j];
      assert part.store.folders <= before.store.folders <= whole.store.folders;
      assert part.store.records <= before.store.records <= whole.store.records;
    } else {
      assert keys[..j] == keys;
    }
  }

  /**
   * The `k`-th file: its branch is the step taken from the store left by the
   * first `k` files, and the store that step leaves is part of the final one.
   */
  lemma RunOutcomeAt(s: StoreState, keys: seq<Key>, oracle: nat -> Attempt, k: nat)
    requires k < |keys|
    ensures var before := RunFiles(s, keys[..k], oracle);
      var r := Step(before.store, keys[k], oracle(k));
      var whole := RunFiles(s, keys, oracle);
      whole.outcomes[k] == r.1 &&
      r.0.folders <= whole.store.folders && r.0.records <= whole.store.records
  {
    var prefix := keys[..k + 1];
    assert prefix[..k] == keys[..k] && prefix[k] == keys[k];
    RunFilesLast(s, prefix, oracle);
    RunPrefix(s, keys, oracle, k + 1);
    var part := RunFiles(s, prefix, oracle);
    var r := Step(RunFiles(s, keys[..k], oracle).store, keys[k], oracle(k));
    assert part.store == r.0 && part.outcomes[k] == r.1;
  }

  /** A file that was imported or skipped has its folder and its record in the store at the end of the run. */
  lemma RecordedAfterRun(s: StoreState, keys: seq<Key>, oracle: nat -> Attempt, k: nat)
    requires k < |keys|
    requires RunFiles(s, keys, oracle).outcomes[k] != Errored
    ensures HasFile(RunFiles(s, keys, oracle).store.records, keys[k])
    ensures keys[k].folder in RunFiles(s, keys, oracle).store.folders
  {
    RunOutcomeAt(s, keys, oracle, k);
    var before := RunFiles(s, keys[..k], oracle).store;
    StepSpec(before, keys[k], oracle(k));
    var r := Step(before, keys[k], oracle(k));
    HasFileGrows(r.0.records, RunFiles(s, keys, oracle).store.records, keys[k]);
  }

  /**
   * Within one run, once a file is imported (or found present), a later file
   * with the same name and target folder takes the skip branch.
   */
  lemma SameRunDuplicateSkipped(s: StoreState, keys: seq<Key>, oracle: nat -> Attempt, i: nat, j: nat)
    requires i < j < |keys| && keys[i] == keys[j]
    requires RunFiles(s, keys, oracle).outcomes[i] != Errored
    ensures RunFiles(s, keys, oracle).outcomes[j] == Skipped
  {
    var prefix := keys[..j];
    RunPrefix(s, keys, oracle, j);
    assert prefix[i] == keys[i];
    RecordedAfterRun(s, prefix, oracle, i);
    RunOutcomeAt(s, keys, oracle, j);
  }

  /** Every record from index `n` on differs in name or folder from every record before it. */
  ghost predicate DistinctFrom(records: seq<Record>, n: nat) {
    forall i, j :: 0 <= i < j < |records| && n <= j ==>
      records[i].name != records[j].name || records[i].folder != records[j].folder
  }

  /**
   * Within-run deduplication: each record a run adds has a name and folder
   * that no earlier record has, so files sharing a name and a target folder
   * add at most one record between them.
   */
  lemma {:induction false} RunAddsDistinctRecords(s: StoreState, keys: seq<Key>, oracle: nat -> Attempt)
    ensures DistinctFrom(RunFiles(s, keys, oracle).store.records, |s.records|)
    decreases |keys|
  {
    if keys != [] {
      var k := |keys| - 1;
      RunAddsDistinctRecords(s, keys[..k], oracle);
      RunFilesLast(s, keys, oracle);
      var before := RunFiles(s, keys[..k], oracle).store;
      var after := RunFiles(s, keys, oracle).store;
      if after.records != before.records {
        var n := |before.records|;
        assert !HasFile(before.records, keys[k]);
        assert after.records[n].name == keys[k].name && after.records[n].folder == keys[k].folder;
      }
    }
  }

  /** A run never creates a second record with the same name in the same folder. */
  lemma RunKeepsNoDuplicates(s: StoreState, keys: seq<Key>, oracle: nat -> Attempt)
    requires NoDuplicates(s.records)
    ensures NoDuplicates(RunFiles(s, keys, oracle).store.records)
  {
    var after := RunFiles(s, keys, oracle).store.records;
    RunAddsDistinctRecords(s, keys, oracle);
    RunGrows(s, keys, oracle);
    forall i, j | 0 <= i < j < |s.records|
      ensures after[i].name != after[j].name || after[i].folder != after[j].folder
    {
      assert after[i] == s.records[i] && after[j] == s.records[j];
    }
  }

  /** Every file of the list already has its folder and its record in `s`. */
  ghost predicate AllPresent(s: StoreState, keys: seq<Key>) {
    forall k :: 0 <= k < |keys| ==> keys[k].folder in s.folders && HasFile(s.records, keys[k])
  }

  /** When every file is already present, a run skips them all and changes nothing. */
  lemma {:induction false} RunOverPresentIsNoop(s: StoreState, keys: seq<Key>, oracle: nat -> Attempt)
    requires AllPresent(s, keys)
    ensures var p := RunFiles(s, keys, oracle);
      p.store == s && p.imported == 0 && p.errors == 0
      && forall k :: 0 <= k < |keys| ==> p.outcomes[k] == Skipped
    decreases |keys|
  {
    if keys != [] {
      var k := |keys| - 1;
      var prefix := keys[..k];
      assert AllPresent(s, prefix) by {
        forall m | 0 <= m < k ensures prefix[m] == keys[m] { }
      }
      RunOverPresentIsNoop(s, prefix, oracle);
      RunFilesLast(s, keys, oracle);
      var r := Step(s, keys[k], oracle(k));
      assert HasFile(s.records, keys[k]) && keys[k].folder in s.folders;
      assert r.0 == s by {
        assert s.folders + {keys[k].folder} == s.folders;
      }
    }
  }

  /**
   * Idempotence: after a run without errors, running again over the same
   * files imports nothing, reports no error and leaves the store unchanged,
   * whatever the store would answer.
   */
  lemma RerunImportsNothing(s: StoreState, keys: seq<Key>, oracle: nat -> Attempt, oracle2: nat -> Attempt)
    requires RunFiles(s, keys, oracle).errors == 0
    ensures var p := RunFiles(s, keys, oracle);
      var q := RunFiles(p.store, keys, oracle2);
      q.store == p.store && q.imported == 0 && q.errors == 0 &&
      forall k :: 0 <= k < |keys| ==> q.outcomes[k] == Skipped
  {
    var p := RunFiles(s, keys, oracle);
    RunCounts(s, keys, oracle);
    forall k | 0 <= k < |keys|
      ensures keys[k].folder in p.store.folders && HasFile(p.store.records, keys[k])
    {
      assert p.outcomes[k] in p.outcomes;
      RecordedAfterRun(s, keys, oracle, k);
    }
    RunOverPresentIsNoop(p.store, keys, oracle2);
  }
}
