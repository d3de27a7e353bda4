/**
 Data files that sources import become sources of the importing group.  The groups share one backing
 array: each deletes what it claims in place, and the caller's slice keeps its length.
 */
module DataClaims {
  import opened Wrappers

  datatype Import = Import(path: string, kind: string)

  /** Joining a package and a path in it, both already clean. */
  function JoinPkg(pkg: string, file: string): string {
    if pkg == "" then file else pkg + "/" + file
  }

  /** The workspace path of a file: the package path, a slash and the file; in the root package the file itself. */
  predicate IsPathOf(path: string, pkg: string, file: string) {
    if pkg == "" then path == file
    else |path| == |pkg| + 1 + |file| && path[..|pkg|] == pkg && path[|pkg|] == '/' && path[|pkg| + 1..] == file
  }

  lemma JoinPkgIsPath(path: string, pkg: string, file: string)
    ensures path == JoinPkg(pkg, file) <==> IsPathOf(path, pkg, file)
  {
    if IsPathOf(path, pkg, file) && pkg != "" {
      assert path == path[..|pkg|] + [path[|pkg|]] + path[|pkg| + 1..];
    }
  }

  lemma JoinPkgIsInjective(pkg: string, a: string, b: string)
    requires JoinPkg(pkg, a) == JoinPkg(pkg, b)
    ensures a == b
  {
    if pkg != "" {
      assert a == (pkg + "/" + a)[|pkg| + 1..] && b == (pkg + "/" + b)[|pkg| + 1..];
    }
  }

  /** Which data files an import may turn into sources: by their extension or the kind of import. */
  type Policy = (string, Import) -> bool

  predicate HasDoubleSlash(p: string) {
    exists i :: 0 < i < |p| && p[i - 1] == '/' && p[i] == '/'
  }

  /** A collected import path is not empty, and a cleaned path or a URL: only a URL may end in a slash. */
  predicate IsImportPath(p: string) {
    p != "" && (p[|p| - 1] != '/' || HasDoubleSlash(p))
  }

  /** The directory of a package is a clean relative path, and every import was collected from a source. */
  ghost predicate Collected(pkg: string, imports: seq<Import>) {
    !HasDoubleSlash(pkg + "/") && forall i :: 0 <= i < |imports| ==> IsImportPath(imports[i].path)
  }

  ghost predicate Wanted(pkg: string, accepts: Policy, imports: seq<Import>, file: string) {
    exists i :: 0 <= i < |imports| && IsPathOf(imports[i].path, pkg, file) && accepts(file, imports[i])
  }

  /** So no import names a blank. */
  lemma BlankIsNotWanted(pkg: string, accepts: Policy, imports: seq<Import>)
    requires Collected(pkg, imports)
    ensures !Wanted(pkg, accepts, imports, "")
  {
    assert pkg + "/" + "" == pkg + "/";
    forall i | 0 <= i < |imports| ensures !IsPathOf(imports[i].path, pkg, "") {
      JoinPkgIsPath(imports[i].path, pkg, "");
    }
  }

  /** Different files, none of them blank. */
  ghost predicate RealFiles<T>(files: seq<T>, blank: T) {
    && (forall i, j :: 0 <= i < j < |files| ==> files[i] != files[j])
    && (forall i :: 0 <= i < |files| ==> files[i] != blank)
  }

  /** The files not claimed, in order. */
  function Minus<T(==, !new)>(files: seq<T>, gone: set<T>): (r: seq<T>)
    ensures |r| <= |files| && forall f :: f in r <==> f in files && f !in gone
  {
    if files == [] then []
    else
      var last := files[|files| - 1];
      Minus(files[..|files| - 1], gone) + if last in gone then [] else [last]
  }

  /** The files, followed by blanks up to a length. */
  function Padded<T>(files: seq<T>, n: nat, blank: T): (r: seq<T>)
    requires |files| <= n
    ensures |r| == n
  {
    files + seq(n - |files|, i => blank)
  }

  function Removed<T>(s: seq<T>, i: nat): seq<T>
    requires i < |s|
  {
    s[..i] + s[i + 1..]
  }

  lemma {:induction false} MinusOfReal<T(!new)>(files: seq<T>, gone: set<T>, blank: T)
    requires RealFiles(files, blank)
    ensures RealFiles(Minus(files, gone), blank)
  {
    if files != [] {
      var front, last := files[..|files| - 1], files[|files| - 1];
      MinusOfReal(front, gone, blank);
      assert last !in front;
    }
  }

  lemma {:induction false} SameMinus<T(!new)>(files: seq<T>, a: set<T>, b: set<T>)
    requires forall f :: f in files ==> (f in a <==> f in b)
    ensures Minus(files, a) == Minus(files, b)
  {
    if files != [] {
      SameMinus(files[..|files| - 1], a, b);
    }
  }

  lemma RemovedFromFront<T>(s: seq<T>, t: seq<T>, i: nat)
    requires i < |s|
    ensures Removed(s + t, i) == Removed(s, i) + t
  {
  }

  /** Claiming one more file takes it out of the list. */
  lemma {:induction false} MinusOneMore<T(!new)>(files: seq<T>, gone: set<T>, blank: T, i: nat)
    requires RealFiles(files, blank) && i < |Minus(files, gone)|
    ensures Minus(files, gone + {Minus(files, gone)[i]}) == Removed(Minus(files, gone), i)
  {
    var front, last := files[..|files| - 1], files[|files| - 1];
    var rest, file := Minus(front, gone), Minus(files, gone)[i];
    assert last !in front;
    if i < |rest| {
      assert file == rest[i] && rest[i] in rest && file != last;
      MinusOneMore(front, gone, blank, i);
      RemovedFromFront(rest, if last in gone then [] else [last], i);
    } else {
      assert file == last;
      SameMinus(front, gone, gone + {last});
    }
  }

  lemma InPadded(left: seq<string>, n: nat, f: string)
    requires |left| <= n
    ensures f in Padded(left, n, "") <==> f in left || (f == "" && |left| < n)
  {
    var s := Padded(left, n, "");
    if f in left {
      var k :| 0 <= k < |left| && left[k] == f;
      assert s[k] == f;
    }
    if |left| < n {
      assert s[|left|] == "";
    }
  }

  /** Removing a file of a padded list leaves a padded list. */
  lemma RemoveFromPadded<T(!new)>(files: seq<T>, gone: set<T>, blank: T, m: nat, idx: nat)
    requires RealFiles(files, blank) && |Minus(files, gone)| <= m && idx < m
    requires Padded(Minus(files, gone), m, blank)[idx] != blank
    ensures var file := Padded(Minus(files, gone), m, blank)[idx];
      && |Minus(files, gone + {file})| <= m - 1
      && Removed(Padded(Minus(files, gone), m, blank), idx) == Padded(Minus(files, gone + {file}), m - 1, blank)
  {
    var left, pad := Minus(files, gone), seq(m - |Minus(files, gone)|, i => blank);
    MinusOneMore(files, gone, blank, idx);
    RemovedFromFront(left, pad, idx);
  }

  /******* Deleting in place *******/

  /** slices.Delete of one element: what follows moves down and the last place is cleared. */
  method DeleteAt(a: array<string>, n: nat, idx: nat)
    requires idx < n <= a.Length
    modifies a
    ensures a[..n] == old(a[..idx]) + old(a[idx + 1..n]) + [""]
    ensures a[n..] == old(a[n..])
  {
    ghost var before := a[..];
    for i := idx to n - 1
      invariant forall k :: 0 <= k < idx ==> a[k] == before[k]
      invariant forall k :: idx <= k < i ==> a[k] == before[k + 1]
      invariant forall k :: i <= k < a.Length ==> a[k] == before[k]
    {
      a[i] := a[i + 1];
    }
    a[n - 1] := "";
  }

  /** slices.Index in the first n places. */
  method IndexOf(a: array<string>, n: nat, file: string) returns (idx: Option<nat>)
    requires n <= a.Length
    ensures idx.None? ==> file !in a[..n]
    ensures idx.Some? ==> idx.value < n && a[idx.value] == file && file !in a[..idx.value]
  {
    for i := 0 to n
      invariant file !in a[..i]
    {
      if a[i] == file {
        return Some(i);
      }
    }
    return None;
  }

  /******* One group *******/

  /** The workspace path of every file in the first n places, and the file. */
  method WorkspacePaths(pkg: string, a: array<string>, n: nat) returns (paths: map<string, string>)
    requires n <= a.Length
    ensures forall f :: f in a[..n] ==> JoinPkg(pkg, f) in paths
    ensures forall p :: p in paths ==> paths[p] in a[..n] && p == JoinPkg(pkg, paths[p])
  {
    paths := map[];
    for i := 0 to n
      invariant forall f :: f in a[..i] ==> JoinPkg(pkg, f) in paths
      invariant forall p :: p in paths ==> paths[p] in a[..i] && p == JoinPkg(pkg, paths[p])
    {
      assert a[..i + 1] == a[..i] + [a[i]];
      paths := paths[JoinPkg(pkg, a[i]) := a[i]];
    }
  }

  /** The data files of a list that imports want. */
  ghost predicate Claims(pkg: string, accepts: Policy, imports: seq<Import>, list: seq<string>, claimed: set<string>) {
    forall f :: f in claimed <==> f in list && Wanted(pkg, accepts, imports, f)
  }

  ghost predicate PathsOf(pkg: string, list: seq<string>, paths: map<string, string>) {
    && (forall f :: f in list ==> JoinPkg(pkg, f) in paths)
    && (forall p :: p in paths ==> paths[p] in list && p == JoinPkg(pkg, paths[p]))
  }

  lemma ClaimsOneMore(pkg: string, accepts: Policy, imports: seq<Import>, i: nat, list: seq<string>,
                      paths: map<string, string>, claimed: set<string>)
    requires i < |imports| && PathsOf(pkg, list, paths) && Claims(pkg, accepts, imports[..i], list, claimed)
    ensures var path := imports[i].path;
      Claims(pkg, accepts, imports[..i + 1], list,
        if path in paths && accepts(paths[path], imports[i]) then claimed + {paths[path]} else claimed)
  {
    forall f | f in list
      ensures Wanted(pkg, accepts, imports[..i + 1], f)
        <==> Wanted(pkg, accepts, imports[..i], f) || (IsPathOf(imports[i].path, pkg, f) && accepts(f, imports[i]))
    {
      WantedOneMore(pkg, accepts, imports, i, f);
    }
    forall f | f in list ensures imports[i].path == JoinPkg(pkg, f) <==> IsPathOf(imports[i].path, pkg, f) {
      JoinPkgIsPath(imports[i].path, pkg, f);
    }
    if imports[i].path in paths {
      forall f | f in list && imports[i].path == JoinPkg(pkg, f) ensures f == paths[imports[i].path] {
        JoinPkgIsInjective(pkg, f, paths[imports[i].path]);
      }
    }
  }

  lemma WantedOneMore(pkg: string, accepts: Policy, imports: seq<Import>, i: nat, f: string)
    requires i < |imports|
    ensures Wanted(pkg, accepts, imports[..i + 1], f)
      <==> Wanted(pkg, accepts, imports[..i], f) || (IsPathOf(imports[i].path, pkg, f) && accepts(f, imports[i]))
  {
    if k :| 0 <= k < i && IsPathOf(imports[..i][k].path, pkg, f) && accepts(f, imports[..i][k]) {
      assert imports[..i + 1][k] == imports[..i][k];
    }
    assert imports[..i + 1][i] == imports[i];
  }

  lemma PaddedSplits<T>(left: seq<T>, m: nat, n: nat, blank: T)
    requires |left| <= m <= n
    ensures Padded(left, n, blank) == Padded(left, m, blank) + seq(n - m, i => blank)
  {
  }

  /** What the caller sees of its slice after a deletion in a shorter one, a blank coming in at its end. */
  lemma DeletedBehind<T(!new)>(head: seq<T>, files: seq<T>, gone: set<T>, blank: T, m: nat, n: nat, idx: nat)
    requires RealFiles(files, blank) && |Minus(files, gone)| <= m <= n && idx < m
    requires head == Padded(Minus(files, gone), m, blank) && head[idx] != blank
    ensures |Minus(files, gone + {head[idx]})| <= m - 1
    ensures Removed(head, idx) + [blank] + seq(n - m, i => blank) == Padded(Minus(files, gone + {head[idx]}), n, blank)
  {
    RemoveFromPadded(files, gone, blank, m, idx);
    var left := Minus(files, gone + {head[idx]});
    PaddedSplits(left, m - 1, n, blank);
    assert [blank] + seq(n - m, i => blank) == seq(n - m + 1, i => blank);
  }

  /** A file found nowhere in the slice has been claimed before. */
  lemma NotFoundIsGone(files: seq<string>, gone: set<string>, m: nat, n: nat, file: string)
    requires |Minus(files, gone)| <= m <= n && file !in Padded(Minus(files, gone), n, "")[..m]
    ensures Minus(files, gone + {file}) == Minus(files, gone)
  {
    var s := Padded(Minus(files, gone), n, "");
    forall f | f in files ensures f in gone <==> f in gone + {file} {
      if f !in gone {
        var k :| 0 <= k < |Minus(files, gone)| && Minus(files, gone)[k] == f;
        assert s[..m][k] == f;
      }
    }
    SameMinus(files, gone, gone + {file});
  }

  /** Removing a file from the slice seen by this group; the caller's slice only moves up. */
  method Take(a: array<string>, m: nat, n: nat, file: string, ghost files: seq<string>, ghost gone: set<string>)
    returns (left: nat)
    requires RealFiles(files, "") && |Minus(files, gone)| <= m <= n <= a.Length && file != ""
    requires a[..n] == Padded(Minus(files, gone), n, "")
    modifies a
    ensures |Minus(files, gone + {file})| <= left <= m
    ensures a[..n] == Padded(Minus(files, gone + {file}), n, "") && a[n..] == old(a[n..])
  {
    var idx := IndexOf(a, m, file);
    ghost var before := a[..];
    if idx.None? {
      assert a[..m] == a[..n][..m];
      NotFoundIsGone(files, gone, m, n, file);
      return m;
    }
    DeleteAt(a, m, idx.value);
    assert a[..m] == Removed(before[..m], idx.value) + [""];
    DeletedInArray(before, a[..], files, gone, "", m, n, idx.value);
    return m - 1;
  }

  lemma SplitAt<T>(s: seq<T>, m: nat, n: nat)
    requires m <= n <= |s|
    ensures s[..n] == s[..m] + s[m..][..n - m] && s[n..] == s[m..][n - m..]
  {
  }

  /** The whole array before and after a deletion in its first m places. */
  lemma DeletedInArray<T(!new)>(before: seq<T>, after: seq<T>, files: seq<T>, gone: set<T>, blank: T,
                                m: nat, n: nat, idx: nat)
    requires RealFiles(files, blank) && |Minus(files, gone)| <= m <= n <= |before| == |after| && idx < m
    requires before[..n] == Padded(Minus(files, gone), n, blank) && before[idx] != blank
    requires after[..m] == Removed(before[..m], idx) + [blank] && after[m..] == before[m..]
    ensures |Minus(files, gone + {before[idx]})| <= m - 1
    ensures after[..n] == Padded(Minus(files, gone + {before[idx]}), n, blank) && after[n..] == before[n..]
  {
    var head, pad := before[..m], seq(n - m, i => blank);
    PaddedSplits(Minus(files, gone), m, n, blank);
    SplitAt(before, m, n);
    SplitAt(after, m, n);
    var padded := Padded(Minus(files, gone), m, blank);
    assert head == before[..n][..m] == padded && before[m..][..n - m] == before[..n][m..] == pad;
    DeletedBehind(head, files, gone, blank, m, n, idx);
  }

  /**
   The claiming part of addProjectRule.  The caller's slice, the first n places, holds files and
   blanks; afterwards it holds the files not claimed, again followed by blanks.
   */
  method Claim(pkg: string, accepts: Policy, imports: seq<Import>, a: array<string>, n: nat, ghost files: seq<string>)
    returns (claimed: set<string>)
    requires Collected(pkg, imports)
    requires RealFiles(files, "") && |files| <= n <= a.Length && a[..n] == Padded(files, n, "")
    modifies a
    ensures Claims(pkg, accepts, imports, files, claimed)
    ensures a[..n] == Padded(Minus(files, claimed), n, "")
    ensures a[n..] == old(a[n..])
  {
    var paths := WorkspacePaths(pkg, a, n);
    ghost var list := a[..n];
    claimed := {};
    var m := n;
    MinusNothing(files);
    BlankIsNotWanted(pkg, accepts, imports);
    for i := 0 to |imports|
      invariant |Minus(files, claimed)| <= m <= n
      invariant a[..n] == Padded(Minus(files, claimed), n, "") && a[n..] == old(a[n..])
      invariant Claims(pkg, accepts, imports[..i], list, claimed)
    {
      ClaimsOneMore(pkg, accepts, imports, i, list, paths, claimed);
      if imports[i].path in paths {
        var file := paths[imports[i].path];
        if accepts(file, imports[i]) {
          m := Take(a, m, n, file, files, claimed);
          claimed := claimed + {file};
        }
      }
    }
    assert imports[..|imports|] == imports;
    forall f ensures f in list <==> f in files || (f == "" && |files| < n) {
      InPadded(files, n, f);
    }
  }

  lemma {:induction false} MinusNothing<T(!new)>(files: seq<T>)
    ensures Minus(files, {}) == files
  {
    if files != [] {
      MinusNothing(files[..|files| - 1]);
    }
  }

  /******* All groups, in order *******/

  ghost predicate SomeWants(pkg: string, accepts: Policy, groups: seq<seq<Import>>, f: string) {
    exists h :: 0 <= h < |groups| && Wanted(pkg, accepts, groups[h], f)
  }

  /** Each group has claimed exactly the files that it is the first to want. */
  ghost predicate FirstWins(pkg: string, accepts: Policy, groups: seq<seq<Import>>, files: seq<string>, claims: seq<set<string>>)
    requires |claims| <= |groups|
  {
    forall g, f :: 0 <= g < |claims| ==> ClaimsRightly(pkg, accepts, groups, files, claims, g, f)
  }

  ghost predicate ClaimsRightly(pkg: string, accepts: Policy, groups: seq<seq<Import>>, files: seq<string>,
                                claims: seq<set<string>>, g: nat, f: string)
    requires g < |claims| <= |groups|
  {
    f in claims[g] <==> f in files && FirstWants(pkg, accepts, groups, g, f)
  }

  ghost predicate FirstWants(pkg: string, accepts: Policy, groups: seq<seq<Import>>, g: nat, f: string)
    requires g < |groups|
  {
    Wanted(pkg, accepts, groups[g], f) && !SomeWants(pkg, accepts, groups[..g], f)
  }

  ghost function Union(claims: seq<set<string>>): set<string> {
    if claims == [] then {} else Union(claims[..|claims| - 1]) + claims[|claims| - 1]
  }

  lemma {:induction false} InUnion(claims: seq<set<string>>, f: string)
    ensures f in Union(claims) <==> exists g :: 0 <= g < |claims| && f in claims[g]
  {
    if claims != [] {
      InUnion(claims[..|claims| - 1], f);
    }
  }

  lemma MinusSnoc<T(!new)>(files: seq<T>, last: T, gone: set<T>)
    ensures Minus(files + [last], gone) == Minus(files, gone) + if last in gone then [] else [last]
  {
    assert (files + [last])[..|files|] == files;
  }

  lemma {:induction false} MinusTwice<T(!new)>(files: seq<T>, a: set<T>, b: set<T>)
    ensures Minus(Minus(files, a), b) == Minus(files, a + b)
  {
    if files != [] {
      var front, last := files[..|files| - 1], files[|files| - 1];
      MinusTwice(front, a, b);
      if last in a {
        assert Minus(files, a) == Minus(front, a) + [] == Minus(front, a);
      } else {
        MinusSnoc(Minus(front, a), last, b);
        assert Minus(files, a) == Minus(front, a) + [last];
      }
    }
  }

  lemma {:induction false} WantedIsClaimed(pkg: string, accepts: Policy, groups: seq<seq<Import>>, files: seq<string>,
                                           claims: seq<set<string>>, n: nat, f: string)
    requires n <= |claims| <= |groups| && FirstWins(pkg, accepts, groups, files, claims)
    requires f in files && SomeWants(pkg, accepts, groups[..n], f)
    ensures exists g :: 0 <= g < |claims| && f in claims[g]
  {
    var h :| 0 <= h < n && Wanted(pkg, accepts, groups[..n][h], f);
    if SomeWants(pkg, accepts, groups[..h], f) {
      WantedIsClaimed(pkg, accepts, groups, files, claims, h, f);
    } else {
      assert ClaimsRightly(pkg, accepts, groups, files, claims, h, f);
    }
  }

  /** The files claimed so far are those that some group wants. */
  lemma ClaimedIsWanted(pkg: string, accepts: Policy, groups: seq<seq<Import>>, files: seq<string>,
                        claims: seq<set<string>>, f: string)
    requires |claims| <= |groups| && FirstWins(pkg, accepts, groups, files, claims) && f in files
    ensures f in Union(claims) <==> SomeWants(pkg, accepts, groups[..|claims|], f)
  {
    InUnion(claims, f);
    if SomeWants(pkg, accepts, groups[..|claims|], f) {
      WantedIsClaimed(pkg, accepts, groups, files, claims, |claims|, f);
    }
    if f in Union(claims) {
      var g :| 0 <= g < |claims| && f in claims[g];
      assert ClaimsRightly(pkg, accepts, groups, files, claims, g, f);
      assert Wanted(pkg, accepts, groups[..|claims|][g], f);
    }
  }

  /** The files left for the next group are those that no earlier group wants. */
  lemma LeftForNext(pkg: string, accepts: Policy, groups: seq<seq<Import>>, files: seq<string>, claims: seq<set<string>>, f: string)
    requires |claims| <= |groups| && FirstWins(pkg, accepts, groups, files, claims)
    ensures f in Minus(files, Union(claims)) <==> f in files && !SomeWants(pkg, accepts, groups[..|claims|], f)
  {
    if f in files {
      ClaimedIsWanted(pkg, accepts, groups, files, claims, f);
    }
  }

  lemma FirstWinsOneMore(pkg: string, accepts: Policy, groups: seq<seq<Import>>, files: seq<string>,
                         claims: seq<set<string>>, claimed: set<string>)
    requires |claims| < |groups| && FirstWins(pkg, accepts, groups, files, claims)
    requires Claims(pkg, accepts, groups[|claims|], Minus(files, Union(claims)), claimed)
    ensures FirstWins(pkg, accepts, groups, files, claims + [claimed])
    ensures Union(claims + [claimed]) == Union(claims) + claimed
  {
    var more := claims + [claimed];
    assert more[..|claims|] == claims;
    forall g, f | 0 <= g < |more| ensures ClaimsRightly(pkg, accepts, groups, files, more, g, f) {
      if g < |claims| {
        assert ClaimsRightly(pkg, accepts, groups, files, claims, g, f);
      } else {
        LeftForNext(pkg, accepts, groups, files, claims, f);
      }
    }
  }

  /** A group claims from what earlier ones have left. */
  method ClaimNext(pkg: string, accepts: Policy, imports: seq<Import>, dataFiles: array<string>,
                   ghost files: seq<string>, ghost gone: set<string>)
    returns (claimed: set<string>)
    requires Collected(pkg, imports) && RealFiles(files, "") && |files| == dataFiles.Length
    requires dataFiles[..] == Padded(Minus(files, gone), dataFiles.Length, "")
    modifies dataFiles
    ensures Claims(pkg, accepts, imports, Minus(files, gone), claimed)
    ensures dataFiles[..] == Padded(Minus(files, gone + claimed), dataFiles.Length, "")
  {
    MinusOfReal(files, gone, "");
    assert dataFiles[..dataFiles.Length] == dataFiles[..];
    claimed := Claim(pkg, accepts, imports, dataFiles, dataFiles.Length, Minus(files, gone));
    assert dataFiles[..dataFiles.Length] == dataFiles[..];
    MinusTwice(files, gone, claimed);
  }

  /** No file becomes a source of two groups. */
  lemma ClaimedOnce(pkg: string, accepts: Policy, groups: seq<seq<Import>>, files: seq<string>, claims: seq<set<string>>,
                    g: nat, h: nat, f: string)
    requires |claims| <= |groups| && FirstWins(pkg, accepts, groups, files, claims)
    requires g < |claims| && h < |claims| && f in claims[g] && f in claims[h]
    ensures g == h
  {
    assert ClaimsRightly(pkg, accepts, groups, files, claims, g, f);
    assert ClaimsRightly(pkg, accepts, groups, files, claims, h, f);
    WantedBefore(pkg, accepts, groups, g, h, f);
    WantedBefore(pkg, accepts, groups, h, g, f);
  }

  lemma WantedBefore(pkg: string, accepts: Policy, groups: seq<seq<Import>>, g: nat, h: nat, f: string)
    requires g < |groups| && h <= |groups| && Wanted(pkg, accepts, groups[g], f)
    ensures g < h ==> SomeWants(pkg, accepts, groups[..h], f)
  {
    if g < h {
      assert Wanted(pkg, accepts, groups[..h][g], f);
    }
  }
}
