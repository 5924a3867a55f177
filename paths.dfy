/**
 * Path mapping of the import task: how a listed file path becomes a file
 * name and a target folder path in the asset hierarchy.
 *
 * Everything here is pure string computation over `string` (= `seq<char>`).
 * PHP's `basename`, `dirname`, `str_replace` and string truthiness are
 * written out explicitly.
 */
module Paths {

  /** PHP truthiness of a string: both "" and "0" are falsy. */
  predicate Truthy(s: string) {
    s != "" && s != "0"
  }

  /** The two synthetic entries every directory listing contains. */
  predicate IsDotName(n: string) {
    n == "." || n == ".."
  }

  /** A single directory entry name: non-empty and without a separator. */
  predicate IsSegment(n: string) {
    n != [] && '/' !in n
  }

  /** Index just past the last '/' of `s`, or 0 when `s` has no '/'. */
  function NameStart(s: string): (k: nat)
    ensures k <= |s|
  {
    if s == [] then 0
    else if s[|s| - 1] == '/' then |s|
    else NameStart(s[..|s| - 1])
  }

  /** `basename`: the part after the last '/'. */
  function FileName(path: string): string
  {
    path[NameStart(path)..]
  }

  /** `s` without the run of '/' at its end. */
  function TrimSlashes(s: string): (t: string)
    ensures |t| <= |s|
    decreases |s|
  {
    if s != [] && s[|s| - 1] == '/' then TrimSlashes(s[..|s| - 1]) else s
  }

  /**
   * `dirname`: the part before the last '/', without the run of '/' that
   * precedes the name; "." when there is no '/' and "/" when only slashes
   * precede the name.
   */
  function FileDir(path: string): string
  {
    var k := NameStart(path);
    if k == 0 then "."
    else
      var d := TrimSlashes(path[..k]);
      if d == [] then "/" else d
  }

  /** Trimming keeps a prefix that does not end in '/' and drops only slashes. */
  lemma {:induction false} TrimSlashesSpec(s: string)
    ensures TrimSlashes(s) == s[..|TrimSlashes(s)|]
    ensures TrimSlashes(s) == [] || TrimSlashes(s)[|TrimSlashes(s)| - 1] != '/'
    ensures forall i :: |TrimSlashes(s)| <= i < |s| ==> s[i] == '/'
    decreases |s|
  {
    if s != [] && s[|s| - 1] == '/' {
      var u := s[..|s| - 1];
      TrimSlashesSpec(u);
      var t := TrimSlashes(u);
      assert t == u[..|t|] == s[..|t|];
      forall i | |t| <= i < |s| ensures s[i] == '/' {
        if i < |u| {
          assert s[i] == u[i];
        }
      }
    }
  }

  /** The index found is just past a '/', and no '/' follows it. */
  lemma {:induction false} NameStartSpec(s: string)
    ensures NameStart(s) > 0 ==> s[NameStart(s) - 1] == '/'
    ensures forall j :: NameStart(s) <= j < |s| ==> s[j] != '/'
    decreases |s|
  {
    if s != [] && s[|s| - 1] != '/' {
      var t := s[..|s| - 1];
      NameStartSpec(t);
      assert forall j :: 0 <= j < |t| ==> t[j] == s[j];
    }
  }

  /**
   * `basename` and `dirname` split a path at its last '/': the name holds no
   * '/' and ends the path. A path without '/' has directory "." and is its
   * own name. Otherwise the path is the directory, a non-empty run of '/',
   * then the name, where the directory does not end in '/'; when only
   * slashes precede the name, the directory is "/".
   */
  lemma SplitAtLastSlash(path: string)
    ensures '/' !in FileName(path)
    ensures FileName(path) == path[|path| - |FileName(path)|..]
    ensures '/' !in path ==> FileDir(path) == "." && FileName(path) == path
    ensures '/' in path ==>
      var d, n := FileDir(path), FileName(path);
      |n| < |path| &&
      (d == "/" ==> forall i :: 0 <= i < |path| - |n| ==> path[i] == '/') &&
      (d != "/" ==>
        |d| < |path| - |n| && d == path[..|d|] && d[|d| - 1] != '/' &&
        forall i :: |d| <= i < |path| - |n| ==> path[i] == '/')
  {
    var k := NameStart(path);
    NameStartSpec(path);
    assert path == path[..k] + FileName(path);
    if k == 0 {
      assert '/' !in path by {
        forall j | 0 <= j < |path| ensures path[j] != '/' { }
      }
    } else {
      assert path[k - 1] in path;
      var head := path[..k];
      TrimSlashesSpec(head);
      var t := TrimSlashes(head);
      assert head[k - 1] == '/';
      forall i | |t| <= i < k ensures path[i] == '/' {
        assert head[i] == path[i];
      }
      if t != [] {
        assert t == path[..|t|];
      }
    }
  }

  /** `pat` occurs in `s` starting at index `i`. */
  ghost predicate OccursAt(s: string, pat: string, i: nat) {
    i + |pat| <= |s| && s[i..i + |pat|] == pat
  }

  ghost predicate Occurs(s: string, pat: string) {
    exists i: nat :: OccursAt(s, pat, i)
  }

  /**
   * `str_replace(pat, '', s)`: every occurrence of `pat`, found left to
   * right without overlap, is removed; an empty `pat` leaves `s` as it is.
   */
  function RemoveAll(s: string, pat: string): (r: string)
    ensures |r| <= |s|
    decreases |s|
  {
    if pat == [] || |s| < |pat| then s
    else if s[..|pat|] == pat then RemoveAll(s[|pat|..], pat)
    else [s[0]] + RemoveAll(s[1..], pat)
  }

  /** `pat` occurs in `s` exactly when it occurs at the front or in `s[1..]`. */
  lemma OccursCons(s: string, pat: string)
    requires s != []
    ensures Occurs(s, pat) <==> OccursAt(s, pat, 0) || Occurs(s[1..], pat)
  {
    if Occurs(s[1..], pat) {
      var i: nat :| OccursAt(s[1..], pat, i);
      assert s[i + 1..i + 1 + |pat|] == s[1..][i..i + |pat|];
      assert OccursAt(s, pat, i + 1);
    }
    if Occurs(s, pat) && !OccursAt(s, pat, 0) {
      var i: nat :| OccursAt(s, pat, i);
      assert s[1..][i - 1..i - 1 + |pat|] == s[i..i + |pat|];
      assert OccursAt(s[1..], pat, i - 1);
    }
  }

  /**
   * The replacement changes the string exactly when the searched text is
   * non-empty and occurs in it; when it changes, it gets shorter.
   */
  lemma {:induction false} RemoveAllUnchangedIff(s: string, pat: string)
    ensures RemoveAll(s, pat) == s <==> pat == [] || !Occurs(s, pat)
    ensures pat != [] && Occurs(s, pat) ==> |RemoveAll(s, pat)| < |s|
    decreases |s|
  {
    if pat == [] {
    } else if |s| < |pat| {
      assert !Occurs(s, pat);
    } else {
      OccursCons(s, pat);
      if s[..|pat|] == pat {
        assert OccursAt(s, pat, 0);
      } else {
        assert !OccursAt(s, pat, 0);
        RemoveAllUnchangedIff(s[1..], pat);
        var rest := RemoveAll(s[1..], pat);
        if rest == s[1..] {
          assert [s[0]] + rest == s;
        } else {
          assert |rest| < |s[1..]|;
        }
      }
    }
  }

  /** A `pat` at the front is removed, and the replacement continues after it. */
  lemma RemoveAllAtFront(pat: string, v: string)
    requires pat != []
    ensures RemoveAll(pat + v, pat) == RemoveAll(v, pat)
  {
    assert (pat + v)[..|pat|] == pat && (pat + v)[|pat|..] == v;
  }

  /** When the text does not start with `pat`, its first character is kept. */
  lemma RemoveAllSkip(u: string, pat: string, v: string)
    requires u != [] && pat != [] && (u + pat + v)[..|pat|] != pat
    ensures RemoveAll(u + pat + v, pat) == [u[0]] + RemoveAll(u[1..] + pat + v, pat)
  {
    assert (u + pat + v)[1..] == u[1..] + pat + v;
  }

  /**
   * When `pat` does not start inside `u` (even overlapping into the `pat`
   * after it), the text does not start with `pat`, and the same holds for
   * the tail of `u`.
   */
  lemma NoEarlierOccurrence(u: string, pat: string, v: string)
    requires u != [] && pat != [] && !Occurs(u + pat[..|pat| - 1], pat)
    ensures (u + pat + v)[..|pat|] != pat
    ensures !Occurs(u[1..] + pat[..|pat| - 1], pat)
  {
    var w := u + pat[..|pat| - 1];
    assert (u + pat + v)[..|pat|] == w[..|pat|];
    assert !OccursAt(w, pat, 0);
    OccursCons(w, pat);
    assert w[1..] == u[1..] + pat[..|pat| - 1];
  }

  /**
   * `str_replace` removes the leftmost occurrence first: when `pat` does not
   * start anywhere inside `u` (not even overlapping into the `pat` after it),
   * `u` is kept and the replacement continues on what follows that `pat`.
   */
  lemma {:induction false} RemoveAllFirst(u: string, pat: string, v: string)
    requires pat != [] && !Occurs(u + pat[..|pat| - 1], pat)
    ensures RemoveAll(u + pat + v, pat) == u + RemoveAll(v, pat)
    decreases |u|
  {
    if u == [] {
      assert u + pat + v == pat + v;
      RemoveAllAtFront(pat, v);
    } else {
      calc {
        RemoveAll(u + pat + v, pat);
        { NoEarlierOccurrence(u, pat, v); RemoveAllSkip(u, pat, v); }
        [u[0]] + RemoveAll(u[1..] + pat + v, pat);
        { NoEarlierOccurrence(u, pat, v); RemoveAllFirst(u[1..], pat, v); }
        [u[0]] + (u[1..] + RemoveAll(v, pat));
        { assert [u[0]] + u[1..] == u; }
        u + RemoveAll(v, pat);
      }
    }
  }

  /** Lines 96-100: the directory of the file relative to the base path. */
  function RelativePath(fileDir: string, basePath: string): string
  {
    if fileDir == basePath then "" else RemoveAll(fileDir, basePath + "/")
  }

  /** Lines 103-106: the folder in the asset hierarchy that receives the file. */
  function TargetFolderPath(importDir: string, basePath: string, filePath: string): string
  {
    var rel := RelativePath(FileDir(filePath), basePath);
    if Truthy(rel) && rel != basePath then importDir + "/" + rel else importDir
  }

  /** The name of `dir/name` is `name`, whatever `dir` is. */
  lemma JoinName(dir: string, name: string)
    requires IsSegment(name)
    ensures FileName(dir + "/" + name) == name
  {
    NameStartOfJoin(dir, name);
    assert (dir + "/" + name)[|dir| + 1..] == name;
  }

  /**
   * The target is `importDir` itself, or `importDir` followed by a '/' and a
   * sub-path that is neither empty nor "0".
   */
  lemma TargetFolderPathShape(importDir: string, basePath: string, filePath: string)
    ensures var target := TargetFolderPath(importDir, basePath, filePath);
      target == importDir ||
      (importDir + "/" <= target && Truthy(target[|importDir| + 1..]) && target[|importDir| + 1..] != basePath)
  {
    var target := TargetFolderPath(importDir, basePath, filePath);
    var rel := RelativePath(FileDir(filePath), basePath);
    if target != importDir {
      assert target == importDir + "/" + rel;
      assert target[|importDir| + 1..] == rel;
    }
  }

  /** Splitting a joined path gives back the directory and the entry name. */
  lemma {:induction false} SplitJoin(dir: string, name: string)
    requires IsSegment(name) && |dir| > 0 && dir[|dir| - 1] != '/'
    ensures FileName(dir + "/" + name) == name
    ensures FileDir(dir + "/" + name) == dir
  {
    JoinName(dir, name);
    NameStartOfJoin(dir, name);
    var head := (dir + "/" + name)[..|dir| + 1];
    assert head == dir + "/";
    assert head[..|head| - 1] == dir;
    assert TrimSlashes(head) == TrimSlashes(dir) == dir;
  }

  lemma {:induction false} NameStartOfJoin(dir: string, name: string)
    requires '/' !in name
    ensures NameStart(dir + "/" + name) == |dir| + 1
    decreases |name|
  {
    var p := dir + "/" + name;
    if name == [] {
      assert p[|p| - 1] == '/';
    } else {
      assert p[|p| - 1] == name[|name| - 1];
      assert p[..|p| - 1] == dir + "/" + name[..|name| - 1];
      NameStartOfJoin(dir, name[..|name| - 1]);
    }
  }

  /** Removing a leading `pat` from `pat + rest`, when `pat` does not recur. */
  lemma {:induction false} RemoveAllLeading(pat: string, rest: string)
    requires pat != [] && !Occurs(rest, pat)
    ensures RemoveAll(pat + rest, pat) == rest
  {
    assert (pat + rest)[..|pat|] == pat;
    assert (pat + rest)[|pat|..] == rest;
    RemoveAllUnchangedIff(rest, pat);
  }

  /** A file sitting directly in the base directory lands in `importDir` itself. */
  lemma RootFileMapsToImportDir(importDir: string, basePath: string, filePath: string)
    requires FileDir(filePath) == basePath
    ensures TargetFolderPath(importDir, basePath, filePath) == importDir
  {
  }

  /**
   * A root-level file by name: `basePath/name` maps to `importDir`, for a
   * base path that does not end in '/'.
   */
  lemma {:induction false} RootEntryMapsToImportDir(importDir: string, basePath: string, name: string)
    requires IsSegment(name) && basePath != [] && basePath[|basePath| - 1] != '/'
    ensures TargetFolderPath(importDir, basePath, basePath + "/" + name) == importDir
    ensures FileName(basePath + "/" + name) == name
  {
    SplitJoin(basePath, name);
  }

  /**
   * A file at `basePath/rel/name` maps to `importDir/rel`, provided `rel` is
   * PHP-truthy, differs from `basePath`, and `basePath/` does not occur in it.
   */
  lemma {:induction false} NestedFileMapsToSubfolder(importDir: string, basePath: string, rel: string, name: string)
    requires IsSegment(name) && basePath != []
    requires Truthy(rel) && rel != basePath && !Occurs(rel, basePath + "/") && rel[|rel| - 1] != '/'
    ensures TargetFolderPath(importDir, basePath, basePath + "/" + rel + "/" + name) == importDir + "/" + rel
    ensures FileName(basePath + "/" + rel + "/" + name) == name
  {
    var dir := basePath + "/" + rel;
    assert basePath + "/" + rel + "/" + name == dir + "/" + name;
    SplitJoin(dir, name);
    assert dir == (basePath + "/") + rel;
    RemoveAllLeading(basePath + "/", rel);
    assert dir != basePath by { assert |dir| > |basePath|; }
  }

  /**
   * PHP truthiness quirk: a first-level subdirectory named "0" gives the
   * relative path "0", which is falsy, so its files land in `importDir`.
   */
  lemma {:induction false} ZeroDirMapsToImportDir(importDir: string, basePath: string, name: string)
    requires IsSegment(name) && basePath != []
    ensures TargetFolderPath(importDir, basePath, basePath + "/0/" + name) == importDir
  {
    var dir := basePath + "/0";
    assert basePath + "/0/" + name == dir + "/" + name;
    SplitJoin(dir, name);
    assert !Occurs("0", basePath + "/") by {
      forall i: nat ensures !OccursAt("0", basePath + "/", i) { }
    }
    assert dir == (basePath + "/") + "0";
    RemoveAllLeading(basePath + "/", "0");
    assert dir != basePath by { assert |dir| > |basePath|; }
    assert RelativePath(dir, basePath) == "0";
  }

  /**
   * `str_replace` removes every occurrence of `basePath/`, not only the
   * leading one: with base "/b", the directory "/b/x/b/y" becomes "xy".
   */
  lemma ReplaceAllRemovesLaterOccurrences()
    ensures TargetFolderPath("import", "/b", "/b/x/b/y/f.jpg") == "import/xy"
  {
    var dir, pat := "/b/x/b/y", "/b/";
    assert "/b/x/b/y/f.jpg" == dir + "/" + "f.jpg";
    SplitJoin(dir, "f.jpg");
    assert FileDir("/b/x/b/y/f.jpg") == dir;
    assert "/b" + "/" == pat;
    RemoveAllExample();
    assert RelativePath(dir, "/b") == "xy";
    assert Truthy("xy") && "xy" != "/b";
  }

  /**
   * A base path ending in '/' (an import directory configured as "i/"):
   * `dirname` drops both slashes before the name, so a file directly in
   * the base directory gets a relative path and lands in "i///i".
   */
  lemma TrailingSlashBaseExample()
    ensures TargetFolderPath("i/", "/i/", "/i/" + "/" + "f") == "i///i"
  {
    var path := "/i/" + "/" + "f";
    assert path == "/i//f";
    assert NameStart(path) == 4 by {
      assert path[..4] == "/i//";
    }
    assert path[..4] == "/i//" && "/i//"[..3] == "/i/" && "/i/"[..2] == "/i";
    assert TrimSlashes("/i/") == "/i";
    assert FileDir(path) == "/i";
    assert RelativePath("/i", "/i/") == "/i";
  }

  lemma RemoveAllExample()
    ensures RemoveAll("/b/x/b/y", "/b/") == "xy"
  {
    var pat := "/b/";
    assert RemoveAll("y", pat) == "y";
    assert "/b/y"[..3] == pat && "/b/y"[3..] == "y";
    assert RemoveAll("/b/y", pat) == "y";
    assert "x/b/y"[..3] != pat && "x/b/y"[1..] == "/b/y";
    assert RemoveAll("x/b/y", pat) == "xy";
    assert "/b/x/b/y"[..3] == pat && "/b/x/b/y"[3..] == "x/b/y";
  }
}
