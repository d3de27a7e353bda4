/**
 The candidate paths of an import under a tsconfig: exact "paths" mappings, pattern mappings by
 rank, "baseUrl" and "rootDirs".
 */
module ExpandPaths {
  import opened Wrappers
  import opened Sorting
  import opened Strings
  import opened StarPatterns
  import opened PathTexts
  import Paths
  import TsConfigs

  /** The directory of the configuration file, the paths mappings with the place they are relative to, and the rest. */
  datatype Config = Config(
    dir: string,
    baseUrl: string,
    rel: string,
    paths: map<string, seq<string>>,
    rootDirs: seq<string>
  )

  /** expandPathsMatch and expandBaseUrl: an absolute path is not taken below the directory of the file. */
  function ExpandPathsMatch(cfg: Config, target: string): string {
    CleanJoinTexts(if Rooted(target) then "" else cfg.dir, cfg.rel, target)
  }

  function ExpandBaseUrl(cfg: Config, p: string): string {
    CleanJoinTexts(if Rooted(p) then "" else cfg.dir, cfg.baseUrl, p)
  }

  /** An import starting at the importing file's directory or above. */
  predicate IsRelativePath(p: string) {
    p != "" && p[0] != '/' && p[0] == '.' && (p == "." || p == ".." || HasPrefix(p, "./") || HasPrefix(p, "../"))
  }

  /** matchArray.Less, as an order with ties. */
  predicate Before(a: Entry, b: Entry) {
    !Outranks(b.star, a.star)
  }

  /** Longer prefixes come first, and among equally long ones longer suffixes. */
  ghost predicate AreBestFirst(stars: seq<Star>) {
    forall i, j :: 0 <= i < j < |stars| ==>
      && |stars[i].prefix| >= |stars[j].prefix|
      && (|stars[i].prefix| == |stars[j].prefix| ==> |stars[i].suffix| >= |stars[j].suffix|)
  }

  function StarsOf(matches: seq<Entry>): seq<Star> {
    seq(|matches|, k requires 0 <= k < |matches| => matches[k].star)
  }

  lemma BeforeIsTotalPreorder()
    ensures TotalPreorder(Before)
  {
  }

  predicate FitsKey(key: string, p: string) {
    StarOf(key).Some? && Fits(StarOf(key).value, p)
  }

  function MatchesOf(paths: map<string, seq<string>>, keys: set<string>, p: string): map<string, Entry>
    requires keys <= paths.Keys
  {
    map key | key in keys && FitsKey(key, p) :: Entry(StarOf(key).value, paths[key])
  }

  /** The prefix and suffix of a key overlap in the import: slicing out the text between them panics. */
  predicate Overlaps(key: string, p: string) {
    FitsKey(key, p) && |StarOf(key).value.prefix| + |StarOf(key).value.suffix| > |p|
  }

  ghost predicate Panics(cfg: Config, p: string) {
    exists key :: key in cfg.paths && cfg.paths[key] != [] && Overlaps(key, p)
  }

  /** Two parts that both cover the middle of the import. */
  lemma SharedMiddlePanics(cfg: Config)
    requires cfg.paths == map["a*a" := ["x"]]
    ensures Panics(cfg, "a")
  {
    CutIsUnique("a*a", '*', "a", "a");
    assert cfg.paths["a*a"] != [] && Overlaps("a*a", "a");
  }

  /** The configuration written with texts. */
  predicate Writes(cfg: Config, c: TsConfigs.TsConfig) {
    && !Rooted(cfg.dir) && !Rooted(cfg.rel) && !Rooted(cfg.baseUrl)
    && Segments(cfg.dir) == c.dir && Segments(cfg.rel) == c.paths.rel && Segments(cfg.baseUrl) == c.baseUrl
  }

  /** Targets are looked up where the explicit paths of the configuration are, and baseUrl imports below its baseUrl. */
  lemma LooksUpBelowLocations(cfg: Config, c: TsConfigs.TsConfig, text: string)
    requires Writes(cfg, c) && !Rooted(text)
    ensures c.pathsSet ==>
      Segments(ExpandPathsMatch(cfg, text)) == Paths.Join(TsConfigs.PathsLocation(c).value.0, Segments(text))
    ensures Segments(ExpandBaseUrl(cfg, text)) == Paths.Join(Paths.Join(c.dir, c.baseUrl), Segments(text))
  {
    CleanJoinMeans(cfg.dir, cfg.rel, text);
    Paths.CleanJoin3IsJoin(Segments(cfg.dir), Segments(cfg.rel), Segments(text));
    CleanJoinMeans(cfg.dir, cfg.baseUrl, text);
    Paths.CleanJoin3IsJoin(Segments(cfg.dir), Segments(cfg.baseUrl), Segments(text));
  }

  /** An absolute target loses its root exactly when the mappings are relative to another directory. */
  lemma AbsoluteTargets(cfg: Config, target: string)
    requires Rooted(target) && !Rooted(cfg.rel)
    ensures Rooted(ExpandPathsMatch(cfg, target)) <==> IsHere(cfg.rel)
  {
    CleaningKeepsMeaning(Kept("", cfg.rel, target));
  }

  /******* The list, as a function of the sorted matches *******/

  function Mapped<A, B>(f: A -> B, s: seq<A>): (r: seq<B>)
    ensures |r| == |s| && forall i :: 0 <= i < |r| ==> r[i] == f(s[i])
  {
    seq(|s|, i requires 0 <= i < |s| => f(s[i]))
  }

  /** Where a target of a matching key leads, the matched text in place of its star. */
  function ToPath(cfg: Config, matched: string): string -> string {
    (target: string) => ExpandPathsMatch(cfg, ReplaceFirst(target, '*', matched))
  }

  predicate Sliceable(e: Entry, p: string) {
    Fits(e.star, p) && (e.targets == [] || |e.star.prefix| + |e.star.suffix| <= |p|)
  }

  function PathsOf(cfg: Config, e: Entry, p: string): seq<string>
    requires Sliceable(e, p)
  {
    if e.targets == [] then [] else Mapped(ToPath(cfg, Matched(e.star, p)), e.targets)
  }

  predicate AllFit(matches: seq<Entry>, p: string) {
    forall i :: 0 <= i < |matches| ==> Fits(matches[i].star, p)
  }

  predicate AllSliceable(matches: seq<Entry>, n: nat, p: string)
    requires n <= |matches|
  {
    forall i :: 0 <= i < n ==> Sliceable(matches[i], p)
  }

  function Flat<T>(blocks: seq<seq<T>>): seq<T> {
    if blocks == [] then [] else Flat(blocks[..|blocks| - 1]) + blocks[|blocks| - 1]
  }

  lemma FlatOneMore<T>(blocks: seq<seq<T>>, block: seq<T>)
    ensures Flat(blocks + [block]) == Flat(blocks) + block
  {
    assert (blocks + [block])[..|blocks|] == blocks;
  }

  /** The mapped paths of the first n matches. */
  function Pieces(cfg: Config, matches: seq<Entry>, n: nat, p: string): (r: seq<seq<string>>)
    requires n <= |matches| && AllSliceable(matches, n, p)
    ensures |r| == n
  {
    seq(n, k requires 0 <= k < n => PathsOf(cfg, matches[k], p))
  }

  /** A list with the mapped paths of the first n matches behind it. */
  function WithMatches(cfg: Config, exact: seq<string>, matches: seq<Entry>, n: nat, p: string): seq<string>
    requires n <= |matches| && AllSliceable(matches, n, p)
  {
    Flat([exact] + Pieces(cfg, matches, n, p))
  }

  function ExactPaths(cfg: Config, p: string): seq<string> {
    if p in cfg.paths then Mapped((target: string) => ExpandPathsMatch(cfg, target), cfg.paths[p]) else []
  }

  function BasePaths(cfg: Config, p: string): seq<string> {
    if IsRelativePath(p) then [] else [ExpandBaseUrl(cfg, p)]
  }

  function RootPaths(cfg: Config, p: string): seq<string> {
    Mapped((d: string) => CleanJoinTexts(d, "", p), cfg.rootDirs)
  }

  /** Exact mappings, then pattern mappings by rank, then baseUrl, then rootDirs. */
  ghost predicate ExpandsTo(cfg: Config, p: string, matches: seq<Entry>, r: seq<string>) {
    && Lists(MatchesOf(cfg.paths, cfg.paths.Keys, p), matches) && SortedBy(Before, matches)
    && AllSliceable(matches, |matches|, p)
    && r == WithMatches(cfg, ExactPaths(cfg, p), matches, |matches|, p) + BasePaths(cfg, p) + RootPaths(cfg, p)
  }

  /** There are no ties among the matches of one import, so every map order and every sort give the same list. */
  lemma ExpansionIsUnique(cfg: Config, p: string, m1: seq<Entry>, r1: seq<string>, m2: seq<Entry>, r2: seq<string>)
    requires ExpandsTo(cfg, p, m1, r1) && ExpandsTo(cfg, p, m2, r2)
    ensures m1 == m2 && r1 == r2
  {
    BeforeIsTotalPreorder();
    forall a, b | a in m1 && b in m1 && Before(a, b) && Before(b, a) ensures a == b {
      EqualRankNeverBothFit(a.star, b.star, p);
    }
    SortedListIsUnique(Before, MatchesOf(cfg.paths, cfg.paths.Keys, p), m1, m2);
  }

  lemma MatchesOfOneMore(paths: map<string, seq<string>>, keys: set<string>, key: string, p: string)
    requires keys <= paths.Keys && key in paths && key !in keys
    ensures MatchesOf(paths, keys + {key}, p)
      == if FitsKey(key, p) then MatchesOf(paths, keys, p)[key := Entry(StarOf(key).value, paths[key])]
         else MatchesOf(paths, keys, p)
  {
  }

  lemma SliceFails(cfg: Config, p: string, matches: seq<Entry>, e: Entry)
    requires Lists(MatchesOf(cfg.paths, cfg.paths.Keys, p), matches) && e in matches
    ensures Fits(e.star, p) && (!Sliceable(e, p) ==> Panics(cfg, p))
  {
    var key := KeyOf(e.star);
    assert MatchesOf(cfg.paths, cfg.paths.Keys, p)[key] == e;
    assert StarOf(key).value == e.star && cfg.paths[key] == e.targets;
  }

  lemma PanicsExactly(cfg: Config, p: string, matches: seq<Entry>)
    requires Lists(MatchesOf(cfg.paths, cfg.paths.Keys, p), matches)
    ensures AllFit(matches, p)
    ensures AllSliceable(matches, |matches|, p) <==> !Panics(cfg, p)
  {
    forall i | 0 <= i < |matches| ensures Fits(matches[i].star, p) && (!Sliceable(matches[i], p) ==> Panics(cfg, p)) {
      SliceFails(cfg, p, matches, matches[i]);
    }
    if AllSliceable(matches, |matches|, p) {
      NoSliceFails(cfg, p, matches);
    }
  }

  lemma NoSliceFails(cfg: Config, p: string, matches: seq<Entry>)
    requires Lists(MatchesOf(cfg.paths, cfg.paths.Keys, p), matches)
    requires AllSliceable(matches, |matches|, p)
    ensures !Panics(cfg, p)
  {
    forall key | key in cfg.paths && cfg.paths[key] != [] ensures !Overlaps(key, p) {
      if FitsKey(key, p) {
        assert MatchesOf(cfg.paths, cfg.paths.Keys, p)[key] in matches;
      }
    }
  }

  /** The matching keys with their targets, by any map order, sorted by any sort. */
  method CollectMatches(cfg: Config, p: string) returns (matches: seq<Entry>)
    ensures Lists(MatchesOf(cfg.paths, cfg.paths.Keys, p), matches) && SortedBy(Before, matches) && AreBestFirst(StarsOf(matches))
  {
    matches := [];
    var rest := cfg.paths.Keys;
    while rest != {}
      invariant rest <= cfg.paths.Keys
      invariant Lists(MatchesOf(cfg.paths, cfg.paths.Keys - rest, p), matches)
      decreases rest
    {
      var key :| key in rest;
      MatchesOfOneMore(cfg.paths, cfg.paths.Keys - rest, key, p);
      assert cfg.paths.Keys - (rest - {key}) == cfg.paths.Keys - rest + {key};
      var star := StarOf(key);
      if star.Some? && HasPrefix(p, star.value.prefix) && HasSuffix(p, star.value.suffix) {
        ListOneMore(MatchesOf(cfg.paths, cfg.paths.Keys - rest, p), matches, Entry(star.value, cfg.paths[key]));
        matches := matches + [Entry(star.value, cfg.paths[key])];
      }
      rest := rest - {key};
    }
    assert cfg.paths.Keys - {} == cfg.paths.Keys;
    BeforeIsTotalPreorder();
    var sorted := SortEntries(Before, matches);
    ListIsPermuted(MatchesOf(cfg.paths, cfg.paths.Keys, p), matches, sorted);
    matches := sorted;
  }

  method AppendMapped<A, B>(possible: seq<B>, f: A -> B, targets: seq<A>) returns (r: seq<B>)
    ensures r == possible + Mapped(f, targets)
  {
    r := possible;
    for i := 0 to |targets|
      invariant r == possible + Mapped(f, targets)[..i]
    {
      r := r + [f(targets[i])];
    }
    assert Mapped(f, targets)[..|targets|] == Mapped(f, targets);
  }

  /** The mapped paths of one match; Err is the panic of a slice that fails. */
  method AppendEntry(cfg: Config, p: string, m: Entry, possible: seq<string>) returns (r: Result<seq<string>>)
    requires Fits(m.star, p)
    ensures r.Ok? <==> Sliceable(m, p)
    ensures r.Ok? ==> r.value == possible + PathsOf(cfg, m, p)
  {
    if |m.targets| == 0 {
      assert possible + [] == possible;
      return Ok(possible);
    }
    if |m.star.prefix| > |p| - |m.star.suffix| {
      return Err;
    }
    var paths := AppendMapped(possible, ToPath(cfg, Matched(m.star, p)), m.targets);
    return Ok(paths);
  }

  lemma OneMoreMatch(cfg: Config, exact: seq<string>, matches: seq<Entry>, i: nat, p: string)
    requires i < |matches| && AllSliceable(matches, i, p)
    ensures AllSliceable(matches, i + 1, p) <==> Sliceable(matches[i], p)
    ensures Sliceable(matches[i], p) ==>
      WithMatches(cfg, exact, matches, i + 1, p) == WithMatches(cfg, exact, matches, i, p) + PathsOf(cfg, matches[i], p)
  {
    if Sliceable(matches[i], p) {
      PiecesGrow(cfg, matches, i, p);
      FlatGrows(exact, Pieces(cfg, matches, i, p), PathsOf(cfg, matches[i], p));
    }
  }

  lemma PiecesGrow(cfg: Config, matches: seq<Entry>, i: nat, p: string)
    requires i < |matches| && AllSliceable(matches, i + 1, p)
    ensures Pieces(cfg, matches, i + 1, p) == Pieces(cfg, matches, i, p) + [PathsOf(cfg, matches[i], p)]
  {
    Extends(Pieces(cfg, matches, i + 1, p), Pieces(cfg, matches, i, p), PathsOf(cfg, matches[i], p));
  }

  lemma Extends<T>(all: seq<T>, front: seq<T>, last: T)
    requires |all| == |front| + 1 && all[|front|] == last && forall k :: 0 <= k < |front| ==> all[k] == front[k]
    ensures all == front + [last]
  {
  }

  lemma FlatGrows<T>(first: seq<T>, pieces: seq<seq<T>>, piece: seq<T>)
    ensures Flat([first] + (pieces + [piece])) == Flat([first] + pieces) + piece
  {
    FlatOneMore([first] + pieces, piece);
    assert [first] + (pieces + [piece]) == ([first] + pieces) + [piece];
  }

  lemma NoMatches(cfg: Config, exact: seq<string>, matches: seq<Entry>, p: string)
    ensures WithMatches(cfg, exact, matches, 0, p) == exact
  {
    FlatOneMore([], exact);
    assert [exact] + Pieces(cfg, matches, 0, p) == [] + [exact];
  }

  /** The mapped paths of the sorted matches. */
  method AppendMatches(cfg: Config, p: string, matches: seq<Entry>, exact: seq<string>) returns (r: Result<seq<string>>)
    requires AllFit(matches, p)
    ensures r.Ok? <==> AllSliceable(matches, |matches|, p)
    ensures r.Ok? ==> r.value == WithMatches(cfg, exact, matches, |matches|, p)
  {
    var possible := exact;
    NoMatches(cfg, exact, matches, p);
    for i := 0 to |matches|
      invariant AllSliceable(matches, i, p)
      invariant possible == WithMatches(cfg, exact, matches, i, p)
    {
      OneMoreMatch(cfg, exact, matches, i, p);
      var more := AppendEntry(cfg, p, matches[i], possible);
      if more.Err? {
        return Err;
      }
      possible := more.value;
    }
    return Ok(possible);
  }

  /** The targets of an exact key. */
  method AppendExact(cfg: Config, p: string) returns (r: seq<string>)
    ensures r == ExactPaths(cfg, p)
  {
    r := [];
    if p in cfg.paths {
      r := AppendMapped([], (target: string) => ExpandPathsMatch(cfg, target), cfg.paths[p]);
    }
  }

  /** ExpandPaths: it panics exactly when the parts of a matching key that has targets overlap in the import. */
  method Expand(cfg: Config, p: string) returns (r: Result<seq<string>>, ghost matches: seq<Entry>)
    ensures r.Err? <==> Panics(cfg, p)
    ensures AreBestFirst(StarsOf(matches))
    ensures r.Ok? ==> ExpandsTo(cfg, p, matches, r.value)
  {
    var exact := AppendExact(cfg, p);
    var found := CollectMatches(cfg, p);
    matches := found;
    PanicsExactly(cfg, p, found);
    var possible := AppendMatches(cfg, p, found, exact);
    if possible.Err? {
      return Err, matches;
    }
    var list := AppendRest(cfg, p, possible.value);
    return Ok(list), matches;
  }

  /** The candidates below baseUrl, unless the import is relative, and below the rootDirs. */
  method AppendRest(cfg: Config, p: string, possible: seq<string>) returns (r: seq<string>)
    ensures r == possible + BasePaths(cfg, p) + RootPaths(cfg, p)
  {
    r := possible;
    if !IsRelativePath(p) {
      r := r + [ExpandBaseUrl(cfg, p)];
    }
    assert r == possible + BasePaths(cfg, p);
    var rooted := (d: string) => CleanJoinTexts(d, "", p);
    assert Mapped(rooted, cfg.rootDirs) == RootPaths(cfg, p);
    r := AppendMapped(r, rooted, cfg.rootDirs);
  }

  /******* The list in blocks *******/

  /** The paths of one matching key, in the order of its targets, the matched text in place of their first star. */
  ghost predicate IsKeyBlock(cfg: Config, star: Star, p: string, block: seq<string>) {
    KeyOf(star) in cfg.paths && |block| == |cfg.paths[KeyOf(star)]| && forall i :: 0 <= i < |block| ==>
      Fits(star, p) && |star.prefix| + |star.suffix| <= |p|
      && block[i] == ExpandPathsMatch(cfg, ReplaceFirst(cfg.paths[KeyOf(star)][i], '*', Matched(star, p)))
  }

  ghost predicate IsExactBlock(cfg: Config, p: string, block: seq<string>) {
    if p in cfg.paths then
      |block| == |cfg.paths[p]| && forall i :: 0 <= i < |block| ==> block[i] == ExpandPathsMatch(cfg, cfg.paths[p][i])
    else block == []
  }

  /** Behind all mappings: the import below baseUrl, unless it is relative, */
  ghost predicate IsBaseBlock(cfg: Config, p: string, block: seq<string>) {
    block == if IsRelativePath(p) then [] else [ExpandBaseUrl(cfg, p)]
  }

  /** and below each of the rootDirs. */
  ghost predicate IsRootBlock(cfg: Config, p: string, block: seq<string>) {
    |block| == |cfg.rootDirs| && forall i :: 0 <= i < |block| ==> block[i] == CleanJoinTexts(cfg.rootDirs[i], "", p)
  }

  /** An import is relative if its first part is "." or "..". */
  lemma RelativeByFirstPart(p: string)
    ensures var first := if Cut(p, '/').Some? then Cut(p, '/').value.0 else p;
      IsRelativePath(p) <==> first == "." || first == ".."
  {
    var cut := Cut(p, '/');
    if HasPrefix(p, "./") {
      assert p == "." + ['/'] + p[2..];
      CutIsUnique(p, '/', ".", p[2..]);
    } else if HasPrefix(p, "../") {
      assert p == ".." + ['/'] + p[3..];
      CutIsUnique(p, '/', "..", p[3..]);
    }
  }

  lemma EntryIsBlock(cfg: Config, e: Entry, p: string)
    requires Sliceable(e, p) && KeyOf(e.star) in cfg.paths && cfg.paths[KeyOf(e.star)] == e.targets
    ensures IsKeyBlock(cfg, e.star, p, PathsOf(cfg, e, p))
  {
  }

  /** The exact mappings, then one block for each matching key, the best first, then the rest. */
  ghost predicate IsInBlocks(cfg: Config, p: string, stars: seq<Star>,
                             exact: seq<string>, blocks: seq<seq<string>>, base: seq<string>, roots: seq<string>) {
    && |blocks| == |stars| && AllKeyBlocks(cfg, p, stars, blocks)
    && AreBestFirst(stars)
    && (forall key :: key in cfg.paths && FitsKey(key, p) ==> StarOf(key).value in stars)
    && IsExactBlock(cfg, p, exact) && IsBaseBlock(cfg, p, base) && IsRootBlock(cfg, p, roots)
  }

  ghost predicate AllKeyBlocks(cfg: Config, p: string, stars: seq<Star>, blocks: seq<seq<string>>)
    requires |blocks| == |stars|
  {
    forall k :: 0 <= k < |stars| ==> Fits(stars[k], p) && IsKeyBlock(cfg, stars[k], p, blocks[k])
  }

  /** Every expansion is of that form. */
  lemma ExpansionIsInBlocks(cfg: Config, p: string, matches: seq<Entry>, r: seq<string>)
    returns (exact: seq<string>, blocks: seq<seq<string>>, base: seq<string>, roots: seq<string>)
    requires ExpandsTo(cfg, p, matches, r)
    ensures IsInBlocks(cfg, p, StarsOf(matches), exact, blocks, base, roots)
    ensures r == Flat([exact] + blocks) + base + roots
  {
    exact, base, roots := ExactPaths(cfg, p), BasePaths(cfg, p), RootPaths(cfg, p);
    blocks := Pieces(cfg, matches, |matches|, p);
    PiecesAreBlocks(cfg, p, matches);
    KeysAreListed(cfg, p, matches);
    ExactIsBlock(cfg, p);
    RootsAreBlock(cfg, p);
    StarsAreBestFirst(matches);
  }

  lemma ExactIsBlock(cfg: Config, p: string)
    ensures IsExactBlock(cfg, p, ExactPaths(cfg, p))
  {
  }

  lemma RootsAreBlock(cfg: Config, p: string)
    ensures IsRootBlock(cfg, p, RootPaths(cfg, p))
  {
  }

  lemma StarsAreBestFirst(matches: seq<Entry>)
    requires SortedBy(Before, matches)
    ensures AreBestFirst(StarsOf(matches))
  {
  }

  lemma PiecesAreBlocks(cfg: Config, p: string, matches: seq<Entry>)
    requires Lists(MatchesOf(cfg.paths, cfg.paths.Keys, p), matches) && AllSliceable(matches, |matches|, p)
    ensures AllKeyBlocks(cfg, p, StarsOf(matches), Pieces(cfg, matches, |matches|, p))
  {
    forall k | 0 <= k < |matches| ensures IsKeyBlock(cfg, matches[k].star, p, PathsOf(cfg, matches[k], p)) {
      ListedIsKey(cfg, p, matches, k);
      EntryIsBlock(cfg, matches[k], p);
    }
  }

  lemma KeysAreListed(cfg: Config, p: string, matches: seq<Entry>)
    requires Lists(MatchesOf(cfg.paths, cfg.paths.Keys, p), matches)
    ensures forall key :: key in cfg.paths && FitsKey(key, p) ==> StarOf(key).value in StarsOf(matches)
  {
    forall key | key in cfg.paths && FitsKey(key, p) ensures StarOf(key).value in StarsOf(matches) {
      var e := MatchesOf(cfg.paths, cfg.paths.Keys, p)[key];
      var k :| 0 <= k < |matches| && matches[k] == e;
      assert StarsOf(matches)[k] == e.star;
    }
  }

  lemma ListedIsKey(cfg: Config, p: string, matches: seq<Entry>, k: nat)
    requires Lists(MatchesOf(cfg.paths, cfg.paths.Keys, p), matches) && k < |matches|
    ensures var key := KeyOf(matches[k].star);
      '*' !in matches[k].star.prefix && key in cfg.paths && cfg.paths[key] == matches[k].targets
  {
    var key := KeyOf(matches[k].star);
    assert MatchesOf(cfg.paths, cfg.paths.Keys, p)[key] == matches[k];
  }
}
