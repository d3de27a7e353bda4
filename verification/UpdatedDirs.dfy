/** The directories to update for a set of changed files: the nearest ones above them with a BUILD file. */
module UpdatedDirs {
  import opened Wrappers
  import opened Paths

  /** The nearest directory, from dir upwards, that has a BUILD file. */
  function Nearest(hasBuildFile: Path -> bool, dir: Path): (r: Option<Path>)
    ensures r.Some? ==> hasBuildFile(r.value) && r.value <= dir
  {
    if hasBuildFile(dir) then Some(dir)
    else if dir == [] then None
    else Nearest(hasBuildFile, Dir(dir))
  }

  /** No directory between the nearest one and dir has a BUILD file; if there is no nearest one, none above dir has. */
  lemma {:induction false} NearestIsDeepest(hasBuildFile: Path -> bool, dir: Path, d: Path)
    requires d <= dir && hasBuildFile(d)
    ensures Nearest(hasBuildFile, dir).Some? && d <= Nearest(hasBuildFile, dir).value
  {
    if !hasBuildFile(dir) {
      assert |d| < |dir| by {
        assert d == dir[..|d|] && dir == dir[..|dir|];
      }
      NearestIsDeepest(hasBuildFile, Dir(dir), d);
    }
  }

  /** A directory above a file; the root counts as above itself. */
  predicate IsAbove(dir: Path, f: Path) {
    dir < f || dir == f == []
  }

  /** The deepest directory above a file that has a BUILD file. */
  ghost predicate IsNearestAbove(hasBuildFile: Path -> bool, f: Path, dir: Path) {
    IsAbove(dir, f) && hasBuildFile(dir) && forall d :: IsAbove(d, f) && hasBuildFile(d) ==> d <= dir
  }

  lemma AboveIsInDir(d: Path, f: Path)
    ensures IsAbove(d, f) <==> d <= Dir(f)
  {
    if d <= Dir(f) && f != [] {
      assert d == Dir(f)[..|d|] == f[..|d|];
    }
    if d < f {
      assert d == f[..|d|] == Dir(f)[..|d|];
    }
  }

  lemma NearestIsNearestAbove(hasBuildFile: Path -> bool, f: Path, dir: Path)
    ensures Nearest(hasBuildFile, Dir(f)) == Some(dir) <==> IsNearestAbove(hasBuildFile, f, dir)
  {
    var nearest := Nearest(hasBuildFile, Dir(f));
    forall d ensures IsAbove(d, f) <==> d <= Dir(f) {
      AboveIsInDir(d, f);
    }
    forall d | IsAbove(d, f) && hasBuildFile(d) ensures nearest.Some? && d <= nearest.value {
      NearestIsDeepest(hasBuildFile, Dir(f), d);
    }
    if nearest.Some? {
      AboveIsInDir(nearest.value, f);
      assert IsNearestAbove(hasBuildFile, f, nearest.value);
    }
    if IsNearestAbove(hasBuildFile, f, dir) {
      assert |dir| == |nearest.value| && dir == nearest.value[..|dir|] == nearest.value;
    }
  }

  /** The wanted directories of some of the changed files. */
  ghost predicate IsUpdated(hasBuildFile: Path -> bool, files: set<Path>, dir: Path) {
    exists f :: f in files && Nearest(hasBuildFile, Dir(f)) == Some(dir)
  }

  ghost predicate NoDuplicates(s: seq<Path>) {
    forall i, j :: 0 <= i < j < |s| ==> s[i] != s[j]
  }

  /** Climbing from a processed directory leads to a directory already listed, or where from leads. */
  ghost predicate Climbed(hasBuildFile: Path -> bool, processed: set<Path>, changed: seq<Path>, from: Option<Path>) {
    forall d :: d in processed ==>
      Nearest(hasBuildFile, d).None? || Nearest(hasBuildFile, d).value in changed || Nearest(hasBuildFile, d) == from
  }

  /**
   computeUpdatedDirs, for any order of the changed files.  The memo of processed directories neither
   loses nor adds a directory, compared with climbing from each file on its own.
   */
  method ComputeUpdatedDirs(hasBuildFile: Path -> bool, changedFiles: set<Path>) returns (changedDirs: seq<Path>)
    ensures NoDuplicates(changedDirs)
    ensures forall d :: d in changedDirs <==> exists f :: f in changedFiles && IsNearestAbove(hasBuildFile, f, d)
  {
    changedDirs := [];
    var processed: set<Path> := {};
    var rest := changedFiles;
    while rest != {}
      invariant rest <= changedFiles
      invariant NoDuplicates(changedDirs) && forall d :: d in changedDirs ==> d in processed
      invariant Climbed(hasBuildFile, processed, changedDirs, None)
      invariant forall d :: d in changedDirs ==> IsUpdated(hasBuildFile, changedFiles, d)
      invariant forall f :: f in changedFiles && f !in rest && Nearest(hasBuildFile, Dir(f)).Some? ==>
        Nearest(hasBuildFile, Dir(f)).value in changedDirs
      decreases rest
    {
      var f :| f in rest;
      rest := rest - {f};
      changedDirs, processed := Climb(hasBuildFile, Dir(f), changedDirs, processed);
    }
    forall d, f ensures Nearest(hasBuildFile, Dir(f)) == Some(d) <==> IsNearestAbove(hasBuildFile, f, d) {
      NearestIsNearestAbove(hasBuildFile, f, d);
    }
  }

  /** The climb from one directory, up to a directory processed before or one with a BUILD file. */
  method Climb(hasBuildFile: Path -> bool, start: Path, changed: seq<Path>, processed: set<Path>)
    returns (changedDirs: seq<Path>, processedDirs: set<Path>)
    requires NoDuplicates(changed) && forall d :: d in changed ==> d in processed
    requires Climbed(hasBuildFile, processed, changed, None)
    ensures NoDuplicates(changedDirs) && forall d :: d in changedDirs ==> d in processedDirs
    ensures Climbed(hasBuildFile, processedDirs, changedDirs, None)
    ensures forall d :: d in changedDirs <==> d in changed || Nearest(hasBuildFile, start) == Some(d)
  {
    changedDirs, processedDirs := changed, processed;
    var dir := start;
    while dir !in processedDirs
      invariant changedDirs == changed && forall d :: d in changed ==> d in processedDirs
      invariant Nearest(hasBuildFile, start) == Nearest(hasBuildFile, dir)
      invariant Climbed(hasBuildFile, processedDirs, changed, Nearest(hasBuildFile, start))
      invariant forall d :: d in processedDirs && d !in processed ==> !hasBuildFile(d) && (|d| > |dir| || d == [])
      decreases if dir in processedDirs then 0 else |dir| + 1
    {
      processedDirs := processedDirs + {dir};
      if hasBuildFile(dir) {
        changedDirs := changedDirs + [dir];
        assert changedDirs[|changed|] == dir;
        break;
      }
      dir := Dir(dir);
    }
  }
}
