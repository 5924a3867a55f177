/**
 * The recursive directory listing of the import task
 * (`getFilesRecursively`).
 *
 * The filesystem is an abstract tree: a directory is the sequence of its
 * entries in listing order, and each entry is a file or a subdirectory.
 * The synthetic "." and ".." entries may appear anywhere in a listing; they
 * are skipped by name before the entry's kind is looked at.
 */
module Walker {
  import opened Paths

  /** One entry of a directory listing. */
  datatype Entry = File(name: string) | Dir(name: string, entries: seq<Entry>)

  /** Every name at every depth is a proper path segment. */
  ghost predicate WellNamed(es: seq<Entry>)
    decreases es
  {
    forall i :: 0 <= i < |es| ==>
      IsSegment(es[i].name) && (es[i].Dir? ==> WellNamed(es[i].entries))
  }

  /**
   * The paths `getFilesRecursively(dir)` returns for a directory with
   * entries `es`: each file as `dir/name`, each subdirectory's own listing
   * spliced in at its position.
   */
  function Listing(dir: string, es: seq<Entry>): seq<string>
    decreases es
  {
    if es == [] then []
    else EntryListing(dir, es[0]) + Listing(dir, es[1..])
  }

  /** What one entry of `dir` contributes to the listing. */
  function EntryListing(dir: string, e: Entry): seq<string>
    decreases e, 0
  {
    if IsDotName(e.name) then []
    else match e
      case File(n) => [dir + "/" + n]
      case Dir(n, sub) =>
        Listing(dir + "/" + n, sub)
  }

  /** Number of regular files at every depth, not counting dot entries. */
  function LeafCount(es: seq<Entry>): nat
    decreases es
  {
    if es == [] then 0
    else
      (if IsDotName(es[0].name) then 0
       else match es[0]
         case File(_) => 1
         case Dir(_, sub) => LeafCount(sub))
      + LeafCount(es[1..])
  }

  /**
   * Independent description of the listed paths: `p` is the path of a
   * non-dot file entry reached from `dir` through non-dot directories.
   */
  ghost predicate Reaches(dir: string, es: seq<Entry>, p: string)
    decreases es
  {
    exists i :: 0 <= i < |es| && EntryReaches(dir, es[i], p)
  }

  /** `p` is the entry `e` of `dir` itself, or reached through it. */
  ghost predicate EntryReaches(dir: string, e: Entry, p: string)
    decreases e, 0
  {
    !IsDotName(e.name) &&
    match e
    case File(n) => p == dir + "/" + n
    case Dir(n, sub) => Reaches(dir + "/" + n, sub, p)
  }

  /** `getFilesRecursively`: a loop over the entries, recursing per subdirectory. */
  method ListFiles(dir: string, es: seq<Entry>) returns (files: seq<string>)
    ensures files == Listing(dir, es)
    decreases es
  {
    files := [];
    for i := 0 to |es|
      invariant files + Listing(dir, es[i..]) == Listing(dir, es)
    {
      var item := es[i];
      assert es[i..][1..] == es[i + 1..];
      ghost var rest := Listing(dir, es[i + 1..]);
      assert Listing(dir, es[i..]) == EntryListing(dir, item) + rest;
      if IsDotName(item.name) {
        continue;
      }
      var path := dir + "/" + item.name;
      if item.Dir? {
        var sub := ListFiles(path, item.entries);
        assert EntryListing(dir, item) == sub;
        files := files + sub;
      } else {
        assert EntryListing(dir, item) == [path];
        files := files + [path];
      }
    }
    assert es[|es|..] == [];
  }

  /** The listing has one path per regular file in the tree. */
  lemma {:induction false} ListingLength(dir: string, es: seq<Entry>)
    ensures |Listing(dir, es)| == LeafCount(es)
    decreases es
  {
    if es != [] {
      ListingLength(dir, es[1..]);
      match es[0]
      case File(_) =>
      case Dir(n, sub) => ListingLength(dir + "/" + n, sub);
    }
  }

  /** `Reaches` for a listing split into its first entry and the rest. */
  lemma ReachesCons(dir: string, es: seq<Entry>, p: string)
    requires es != []
    ensures Reaches(dir, es, p) <==> EntryReaches(dir, es[0], p) || Reaches(dir, es[1..], p)
  {
    if Reaches(dir, es, p) {
      var i :| 0 <= i < |es| && EntryReaches(dir, es[i], p);
      if i > 0 {
        assert es[1..][i - 1] == es[i];
      }
    }
    if Reaches(dir, es[1..], p) {
      var i :| 0 <= i < |es[1..]| && EntryReaches(dir, es[1..][i], p);
      assert es[i + 1] == es[1..][i];
    }
  }

  /** The listing holds exactly the files of the tree, at every depth. */
  lemma {:induction false} ListingExact(dir: string, es: seq<Entry>, p: string)
    ensures p in Listing(dir, es) <==> Reaches(dir, es, p)
    decreases es
  {
    if es == [] {
    } else {
      ReachesCons(dir, es, p);
      ListingExact(dir, es[1..], p);
      match es[0]
      case File(_) =>
      case Dir(n, sub) => ListingExact(dir + "/" + n, sub, p);
    }
  }

  /** Every listed path starts with `dir/`. */
  lemma {:induction false} ListingPrefix(dir: string, es: seq<Entry>, p: string)
    requires p in Listing(dir, es)
    ensures dir + "/" <= p
    decreases es
  {
    var e := es[0];
    if p in EntryListing(dir, e) {
      match e
      case File(n) =>
      case Dir(n, sub) =>
        ListingPrefix(dir + "/" + n, sub, p);
        assert (dir + "/" + n + "/")[..|dir| + 1] == dir + "/";
    } else {
      ListingPrefix(dir, es[1..], p);
    }
  }

  /** No listed path ends in a "." or ".." entry; each ends in a proper file name. */
  lemma {:induction false} ListingNamesNoDots(dir: string, es: seq<Entry>, p: string)
    requires WellNamed(es) && p in Listing(dir, es)
    ensures IsSegment(FileName(p)) && !IsDotName(FileName(p))
    decreases es
  {
    var e := es[0];
    assert IsSegment(e.name) && (e.Dir? ==> WellNamed(e.entries));
    if p in EntryListing(dir, e) {
      match e
      case File(n) =>
        JoinName(dir, n);
      case Dir(n, sub) =>
        ListingNamesNoDots(dir + "/" + n, sub, p);
    } else {
      assert WellNamed(es[1..]) by {
        forall i | 0 <= i < |es[1..]| ensures es[1..][i] == es[i + 1] { }
      }
      ListingNamesNoDots(dir, es[1..], p);
    }
  }
}
