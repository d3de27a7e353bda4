/**
 How a tsconfig.json inherits: several extended configurations are merged left to right, relative
 paths are re-expressed from the extending file's directory, and files are loaded at most once even
 when they extend each other in a cycle.
 */
module TsConfigs {
  import opened Wrappers
  import opened Paths

  type File = Path

  /**
   The options inherited whole: the nullable booleans, declarationDir, and outDir, rootDir,
   tsBuildInfoFile and importHelpers, whose "set" flag says whether a file gave a value.
   */
  type OptionName(==, !new)
  type OptionValue(==, !new)

  type Mapping = map<string, seq<string>>

  datatype Jsx = JsxNone | JsxMode(mode: string)

  datatype TsConfigJson = TsConfigJson(
    extended: seq<string>,
    options: map<OptionName, OptionValue>,
    baseUrl: Option<Path>,
    paths: Option<Mapping>,
    rootDirs: Option<seq<Path>>,
    jsx: Option<Jsx>
  )

  datatype PathsMapping = PathsMapping(rel: Path, targets: Mapping)

  const DEFAULT_CONFIG_PATHS := PathsMapping([], map[])

  datatype TsConfig = TsConfig(
    dir: Path,
    options: map<OptionName, OptionValue>,
    baseUrl: Path,
    baseUrlSet: bool,
    paths: PathsMapping,
    pathsSet: bool,
    rootDirs: Option<seq<Path>>,
    jsx: Jsx
  )

  function Each<A, B>(s: seq<A>, f: A -> B): (r: seq<B>)
    ensures |r| == |s| && forall i :: 0 <= i < |s| ==> r[i] == f(s[i])
  {
    seq(|s|, i requires 0 <= i < |s| => f(s[i]))
  }

  function OrElse<T>(first: Option<T>, second: Option<T>): Option<T> {
    if first.Some? then first else second
  }

  /** The last value given in a list. */
  function LastSet<T>(s: seq<Option<T>>): Option<T> {
    if s == [] then None else OrElse(s[|s| - 1], LastSet(s[..|s| - 1]))
  }

  lemma {:induction false} LastSetIsLast<T>(s: seq<Option<T>>) returns (k: nat)
    requires LastSet(s).Some?
    ensures k < |s| && s[k] == LastSet(s) && forall i :: k < i < |s| ==> s[i].None?
  {
    k := |s| - 1;
    if s[k].None? {
      k := LastSetIsLast(s[..|s| - 1]);
    }
  }

  /******* Merging *******/

  /** mergeBaseConfigs: right overrides left, seen from the extending file's directory. */
  function MergeBases(left: TsConfig, right: TsConfig, dir: Path): TsConfig {
    var leftRel, rightRel := RelOrDot(dir, left.dir), RelOrDot(dir, right.dir);
    TsConfig(
      dir,
      left.options + right.options,
      if right.baseUrlSet then right.baseUrl else left.baseUrl,
      left.baseUrlSet || right.baseUrlSet,
      if right.pathsSet then PathsMapping(Join(rightRel, right.paths.rel), right.paths.targets)
      else if left.pathsSet then PathsMapping(Join(leftRel, left.paths.rel), left.paths.targets)
      else DEFAULT_CONFIG_PATHS,
      left.pathsSet || right.pathsSet,
      if right.rootDirs.Some? then Some(Each(right.rootDirs.value, (d: Path) => Join(rightRel, d)))
      else if left.rootDirs.Some? then Some(Each(left.rootDirs.value, (d: Path) => Join(leftRel, d)))
      else None,
      if right.jsx != JsxNone then right.jsx else left.jsx
    )
  }

  function MergeAll(dir: Path, bases: seq<TsConfig>): TsConfig
    requires bases != []
  {
    if |bases| == 1 then bases[0]
    else MergeBases(MergeAll(dir, bases[..|bases| - 1]), bases[|bases| - 1], dir)
  }

  /** The option part of parseTsConfigJSON: a file's own values override those of its base. */
  function Extend(dir: Path, own: TsConfigJson, base: Option<TsConfig>): TsConfig {
    var rel := if base.Some? then RelOrDot(dir, base.value.dir) else [];
    var inheritUrl := base.Some? && base.value.baseUrlSet;
    var baseUrl := if own.baseUrl.Some? then own.baseUrl.value
                   else if inheritUrl then Join(rel, base.value.baseUrl) else [];
    TsConfig(
      dir,
      if base.Some? then base.value.options + own.options else own.options,
      baseUrl,
      own.baseUrl.Some? || inheritUrl,
      if own.paths.Some? then PathsMapping(baseUrl, own.paths.value)
      else if base.Some? then PathsMapping(Join(rel, base.value.paths.rel), base.value.paths.targets)
      else DEFAULT_CONFIG_PATHS,
      own.paths.Some? || (base.Some? && base.value.pathsSet),
      if own.rootDirs.Some? then Some(Each(own.rootDirs.value, Clean))
      else if base.Some? && base.value.rootDirs.Some?
      then Some(Each(base.value.rootDirs.value, (d: Path) => Join(rel, d)))
      else None,
      if own.jsx.Some? then own.jsx.value else if base.Some? then base.value.jsx else JsxNone
    )
  }

  function Build(dir: Path, own: TsConfigJson, bases: seq<TsConfig>): TsConfig {
    Extend(dir, own, if bases == [] then None else Some(MergeAll(dir, bases)))
  }

  /******* What each setting of a configuration means *******/

  function Setting(c: TsConfig, name: OptionName): Option<OptionValue> {
    if name in c.options then Some(c.options[name]) else None
  }

  function JsxSetting(c: TsConfig): Option<Jsx> {
    if c.jsx == JsxNone then None else Some(c.jsx)
  }

  /** The directory in which explicit paths mappings are looked up, and the mappings. */
  function PathsLocation(c: TsConfig): Option<(Path, Mapping)> {
    if c.pathsSet then Some((Join(c.dir, c.paths.rel), c.paths.targets)) else None
  }

  function RootLocations(c: TsConfig): Option<seq<Path>> {
    if c.rootDirs.Some? then Some(Each(c.rootDirs.value, (d: Path) => Join(c.dir, d))) else None
  }

  /** A base whose directory can be reached from the extending file's directory. */
  ghost predicate Reachable(dir: Path, base: TsConfig) {
    IsClean(dir) && IsClean(base.dir) && Height(dir) <= Height(base.dir)
  }

  lemma {:induction false} MergeAllTakesLast<T>(
      dir: Path, bases: seq<TsConfig>, get: TsConfig -> Option<T>, fits: TsConfig -> bool)
    requires bases != [] && forall i :: 0 <= i < |bases| ==> fits(bases[i])
    requires forall l, r :: fits(l) && fits(r) ==>
      fits(MergeBases(l, r, dir)) && get(MergeBases(l, r, dir)) == OrElse(get(r), get(l))
    ensures fits(MergeAll(dir, bases)) && get(MergeAll(dir, bases)) == LastSet(Each(bases, get))
  {
    var front, last := bases[..|bases| - 1], bases[|bases| - 1];
    assert Each(bases, get)[..|bases| - 1] == Each(front, get);
    if front == [] {
      assert LastSet(Each(front, get)).None?;
    } else {
      MergeAllTakesLast(dir, front, get, fits);
    }
  }

  lemma BuildSetting(dir: Path, own: TsConfigJson, bases: seq<TsConfig>, name: OptionName)
    ensures Setting(Build(dir, own, bases), name)
      == if name in own.options then Some(own.options[name])
         else LastSet(Each(bases, (b: TsConfig) => Setting(b, name)))
  {
    if bases != [] {
      MergeAllTakesLast(dir, bases, (b: TsConfig) => Setting(b, name), (b: TsConfig) => true);
    }
  }

  /** An explicit "none" overrides when a file gives it itself, but not between the merged bases. */
  lemma BuildJsx(dir: Path, own: TsConfigJson, bases: seq<TsConfig>)
    ensures own.jsx.Some? ==> Build(dir, own, bases).jsx == own.jsx.value
    ensures own.jsx.None? && |bases| != 1 ==> JsxSetting(Build(dir, own, bases)) == LastSet(Each(bases, JsxSetting))
    ensures own.jsx.None? && |bases| == 1 ==> Build(dir, own, bases).jsx == bases[0].jsx
  {
    if bases != [] {
      MergeAllTakesLast(dir, bases, JsxSetting, (b: TsConfig) => true);
    }
  }

  lemma {:induction false} LastSetIsNone<T>(s: seq<Option<T>>)
    ensures LastSet(s).None? <==> forall i :: 0 <= i < |s| ==> s[i].None?
  {
    if s != [] {
      LastSetIsNone(s[..|s| - 1]);
    }
  }

  /** So among several bases the last one decides exactly when it is not "none", or all of them are. */
  lemma JsxOfLastBase(dir: Path, own: TsConfigJson, bases: seq<TsConfig>)
    requires own.jsx.None? && |bases| >= 2
    ensures Build(dir, own, bases).jsx == bases[|bases| - 1].jsx
      <==> bases[|bases| - 1].jsx != JsxNone || forall i :: 0 <= i < |bases| ==> bases[i].jsx == JsxNone
  {
    var settings := Each(bases, JsxSetting);
    BuildJsx(dir, own, bases);
    LastSetIsNone(settings);
    assert settings[|bases| - 1] == JsxSetting(bases[|bases| - 1]);
  }

  /** A last base with "none" does not undo the mode of the one before. */
  lemma NoneDoesNotOverride(dir: Path, own: TsConfigJson, left: TsConfig, right: TsConfig)
    requires own.jsx.None? && left.jsx == JsxMode("react") && right.jsx == JsxNone
    ensures Build(dir, own, [left, right]).jsx == JsxMode("react")
  {
    JsxOfLastBase(dir, own, [left, right]);
    BuildJsx(dir, own, [left, right]);
    var settings := Each([left, right], JsxSetting);
    assert settings[1].None? && settings[..1][0] == settings[0];
  }

  lemma MergePathsLocation(dir: Path, left: TsConfig, right: TsConfig)
    requires Reachable(dir, left) && Reachable(dir, right)
    ensures PathsLocation(MergeBases(left, right, dir)) == OrElse(PathsLocation(right), PathsLocation(left))
  {
    RebaseKeepsLocation(dir, left.dir, left.paths.rel);
    RebaseKeepsLocation(dir, right.dir, right.paths.rel);
  }

  /** Explicit paths keep their location: the file's own, else that of the last base that has some. */
  lemma BuildPathsLocation(dir: Path, own: TsConfigJson, bases: seq<TsConfig>)
    requires forall i :: 0 <= i < |bases| ==> Reachable(dir, bases[i])
    ensures PathsLocation(Build(dir, own, bases))
      == if own.paths.Some? then Some((Join(dir, Build(dir, own, bases).baseUrl), own.paths.value))
         else LastSet(Each(bases, PathsLocation))
  {
    if bases != [] {
      forall l, r | Reachable(dir, l) && Reachable(dir, r)
        ensures PathsLocation(MergeBases(l, r, dir)) == OrElse(PathsLocation(r), PathsLocation(l))
      {
        MergePathsLocation(dir, l, r);
      }
      MergeAllTakesLast(dir, bases, PathsLocation, (b: TsConfig) => Reachable(dir, b));
      var base := MergeAll(dir, bases);
      RebaseKeepsLocation(dir, base.dir, base.paths.rel);
    }
  }

  lemma RebasedRoots(dir: Path, base: TsConfig, roots: seq<Path>)
    requires Reachable(dir, base)
    ensures Each(Each(roots, (d: Path) => Join(RelOrDot(dir, base.dir), d)), (d: Path) => Join(dir, d))
      == Each(roots, (d: Path) => Join(base.dir, d))
  {
    forall i | 0 <= i < |roots| ensures Join(dir, Rebase(dir, base.dir, roots[i])) == Join(base.dir, roots[i]) {
      RebaseKeepsLocation(dir, base.dir, roots[i]);
    }
  }

  lemma CleanedRoots(dir: Path, roots: seq<Path>)
    ensures Each(Each(roots, Clean), (d: Path) => Join(dir, d)) == Each(roots, (d: Path) => Join(dir, d))
  {
    forall i | 0 <= i < |roots| ensures Join(dir, Clean(roots[i])) == Join(dir, roots[i]) {
      CleanRight(dir, roots[i]);
    }
  }

  lemma MergeRootLocations(dir: Path, left: TsConfig, right: TsConfig)
    requires Reachable(dir, left) && Reachable(dir, right)
    ensures RootLocations(MergeBases(left, right, dir)) == OrElse(RootLocations(right), RootLocations(left))
  {
    if right.rootDirs.Some? {
      RebasedRoots(dir, right, right.rootDirs.value);
    } else if left.rootDirs.Some? {
      RebasedRoots(dir, left, left.rootDirs.value);
    }
  }

  /** rootDirs keep their locations in the same way. */
  lemma BuildRootLocations(dir: Path, own: TsConfigJson, bases: seq<TsConfig>)
    requires forall i :: 0 <= i < |bases| ==> Reachable(dir, bases[i])
    ensures RootLocations(Build(dir, own, bases))
      == if own.rootDirs.Some? then Some(Each(own.rootDirs.value, (d: Path) => Join(dir, d)))
         else LastSet(Each(bases, RootLocations))
  {
    if own.rootDirs.Some? {
      CleanedRoots(dir, own.rootDirs.value);
    } else if bases != [] {
      forall l, r | Reachable(dir, l) && Reachable(dir, r)
        ensures RootLocations(MergeBases(l, r, dir)) == OrElse(RootLocations(r), RootLocations(l))
      {
        MergeRootLocations(dir, l, r);
      }
      MergeAllTakesLast(dir, bases, RootLocations, (b: TsConfig) => Reachable(dir, b));
      var base := MergeAll(dir, bases);
      if base.rootDirs.Some? {
        RebasedRoots(dir, base, base.rootDirs.value);
      }
    }
  }

  /******* baseUrl, which merging does not rebase *******/

  function BaseUrlSetting(c: TsConfig): Option<Path> {
    if c.baseUrlSet then Some(c.baseUrl) else None
  }

  lemma {:induction false} LastSetAt<T>(s: seq<Option<T>>, k: nat)
    requires k < |s| && s[k].Some? && forall i :: k < i < |s| ==> s[i].None?
    ensures LastSet(s) == s[k]
  {
    if k < |s| - 1 {
      LastSetAt(s[..|s| - 1], k);
    }
  }

  /** Merging several bases keeps the last baseUrl as it is. */
  lemma MergedBaseUrl(dir: Path, bases: seq<TsConfig>, k: nat)
    requires |bases| >= 2 && k < |bases| && bases[k].baseUrlSet
    requires forall i :: k < i < |bases| ==> !bases[i].baseUrlSet
    ensures var m := MergeAll(dir, bases); m.dir == dir && m.baseUrlSet && m.baseUrl == bases[k].baseUrl
  {
    var urls := Each(bases, BaseUrlSetting);
    assert LastSet(urls) == Some(bases[k].baseUrl) by {
      LastSetAt(urls, k);
    }
    assert BaseUrlSetting(MergeAll(dir, bases)) == LastSet(urls) by {
      MergeAllTakesLast(dir, bases, BaseUrlSetting, (b: TsConfig) => true);
    }
  }

  lemma ExtendedBaseUrl(dir: Path, own: TsConfigJson, base: TsConfig)
    requires own.baseUrl.None? && base.baseUrlSet && base.dir == dir && IsClean(dir)
    ensures var c := Extend(dir, own, Some(base)); c.baseUrlSet && Join(c.dir, c.baseUrl) == Join(dir, base.baseUrl)
  {
    RebaseKeepsLocation(dir, dir, base.baseUrl);
  }

  /**
   With several bases, the baseUrl comes from the last base k that has one, and the extending file
   looks it up in the right place exactly when it climbs from both directories to the same ancestor.
   */
  lemma MergedBaseUrlLocation(dir: Path, own: TsConfigJson, bases: seq<TsConfig>, k: nat)
    requires own.baseUrl.None? && IsClean(dir) && |bases| >= 2
    requires k < |bases| && bases[k].baseUrlSet && IsClean(bases[k].baseUrl)
    requires forall i :: k < i < |bases| ==> !bases[i].baseUrlSet
    ensures var c, ups := Build(dir, own, bases), Ups(Height(bases[k].baseUrl));
      c.baseUrlSet
      && (Join(c.dir, c.baseUrl) == Join(bases[k].dir, bases[k].baseUrl) <==> Join(dir, ups) == Join(bases[k].dir, ups))
  {
    MergedBaseUrl(dir, bases, k);
    ExtendedBaseUrl(dir, own, MergeAll(dir, bases));
    SamePlace(dir, bases[k].dir, bases[k].baseUrl);
  }

  /** The baseUrl "." of the second base "b" comes to mean the extending file's directory "a". */
  lemma MergedBaseUrlMoves(own: TsConfigJson, left: TsConfig, right: TsConfig)
    requires own.baseUrl.None? && right.dir == [Name("b")] && right.baseUrlSet && right.baseUrl == []
    ensures var c := Build([Name("a")], own, [left, right]);
      Join(c.dir, c.baseUrl) == [Name("a")] && Join(right.dir, right.baseUrl) == [Name("b")]
  {
    var a, b: Path := [Name("a")], [Name("b")];
    MergedBaseUrl(a, [left, right], 1);
    ExtendedBaseUrl(a, own, MergeAll(a, [left, right]));
    CleanOfClean(a);
    CleanOfClean(b);
    assert a + [] == a && b + [] == b;
  }

  /** A file's own baseUrl is taken as it is; without any, the baseUrl is the file's directory and counts as unset. */
  lemma BuildOwnBaseUrl(dir: Path, own: TsConfigJson, bases: seq<TsConfig>)
    ensures var c := Build(dir, own, bases);
      && (own.baseUrl.Some? ==> c.baseUrlSet && c.baseUrl == own.baseUrl.value)
      && (own.baseUrl.None? && LastSet(Each(bases, BaseUrlSetting)).None? ==> !c.baseUrlSet && c.baseUrl == [])
  {
    if bases != [] {
      MergeAllTakesLast(dir, bases, BaseUrlSetting, (b: TsConfig) => true);
    }
  }

  ghost predicate UnsetIsEmpty(c: TsConfig) {
    !c.pathsSet ==> c.paths.targets == map[]
  }

  /** Without explicit paths there are no mappings. */
  lemma BuildKeepsUnsetEmpty(dir: Path, own: TsConfigJson, bases: seq<TsConfig>)
    requires forall i :: 0 <= i < |bases| ==> UnsetIsEmpty(bases[i])
    ensures UnsetIsEmpty(Build(dir, own, bases))
  {
    if bases != [] {
      MergeAllTakesLast<Path>(dir, bases, (c: TsConfig) => None, (c: TsConfig) => UnsetIsEmpty(c));
    }
  }

  /** With a single base it always does. */
  lemma SingleBaseUrlLocation(dir: Path, own: TsConfigJson, base: TsConfig)
    requires own.baseUrl.None? && base.baseUrlSet && Reachable(dir, base)
    ensures var c := Build(dir, own, [base]); c.baseUrlSet && Join(c.dir, c.baseUrl) == Join(base.dir, base.baseUrl)
  {
    RebaseKeepsLocation(dir, base.dir, base.baseUrl);
  }
}
