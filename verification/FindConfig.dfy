/** Finding the tsconfig of a directory by climbing towards the workspace root, on the text of paths. */
module FindConfig {
  import opened Wrappers
  import opened Strings

  type TsConfig(==, !new)

  /** Where a tsconfig file was declared. */
  datatype ConfigFile = ConfigFile(rel: string, fileName: string)

  /******* The directories visited *******/

  /** path.Split: the text up to and including the last slash. */
  function SplitDir(p: string): (r: string)
    ensures r <= p && (r != "" ==> r[|r| - 1] == '/') && '/' !in p[|r|..]
  {
    if p == "" || p[|p| - 1] == '/' then p else SplitDir(p[..|p| - 1])
  }

  function TrimSlash(p: string): string {
    if p != "" && p[|p| - 1] == '/' then p[..|p| - 1] else p
  }

  function Parent(p: string): (r: string)
    ensures p != "" ==> |r| < |p|
  {
    TrimSlash(SplitDir(p))
  }

  function DotIsRoot(p: string): string {
    if p == "." then "" else p
  }

  /** The directory itself and those above it, up to the workspace root "". */
  function Chain(dir: string): (r: seq<string>)
    ensures r != [] && r[0] == DotIsRoot(dir) && r[|r| - 1] == ""
    decreases |dir|
  {
    var d := DotIsRoot(dir);
    [d] + if d == "" then [] else Chain(Parent(d))
  }

  /** The source's test that one directory is at or below another. */
  predicate AtOrBelow(p: string, dir: string) {
    dir == "" || p == dir || HasPrefix(p, dir + "/")
  }

  lemma ParentIsAbove(p: string)
    requires p != ""
    ensures AtOrBelow(p, Parent(p)) && p != Parent(p)
  {
    var d := SplitDir(p);
    if d != "" {
      assert Parent(p) + "/" == d;
    }
  }

  lemma AtOrBelowIsTransitive(a: string, b: string, c: string)
    requires AtOrBelow(a, b) && AtOrBelow(b, c)
    ensures AtOrBelow(a, c)
  {
    if a != b && b != c && b != "" && c != "" {
      assert a[..|b|] == (b + "/")[..|b|] == b;
      assert a[..|c| + 1] == a[..|b|][..|c| + 1] == c + "/";
    }
  }

  /** The chain by its steps. */
  ghost predicate IsChain(dir: string, chain: seq<string>) {
    && chain != [] && chain[0] == DotIsRoot(dir)
    && (forall i :: 0 <= i < |chain| ==> (chain[i] == "" <==> i == |chain| - 1))
    && (forall i :: 0 <= i < |chain| - 1 ==> chain[i + 1] == DotIsRoot(Parent(chain[i])))
  }

  lemma {:induction false} ChainIsChain(dir: string)
    ensures IsChain(dir, Chain(dir))
    decreases |dir|
  {
    var d := DotIsRoot(dir);
    if d != "" {
      ChainIsChain(Parent(d));
      assert Chain(dir)[1..] == Chain(Parent(d));
    }
  }

  lemma ParentIsNearest(p: string, d: string)
    requires p != "" && p != d && AtOrBelow(p, d)
    ensures AtOrBelow(Parent(p), d)
  {
    if d != "" {
      SplitDirIsLongest(p, |d| + 1);
      var s := SplitDir(p);
      assert p[..|d| + 1] == d + "/" && d + "/" <= s;
      if |s| > |d| + 1 {
        assert Parent(p)[..|d| + 1] == s[..|d| + 1] == d + "/";
      } else {
        assert s == d + "/" && Parent(p) == d;
      }
    }
  }

  lemma {:induction false} SplitDirIsLongest(p: string, n: nat)
    requires 0 < n <= |p| && p[n - 1] == '/'
    ensures n <= |SplitDir(p)|
  {
    if p[|p| - 1] != '/' {
      SplitDirIsLongest(p[..|p| - 1], n);
    }
  }

  /** Every directory above is on the chain. */
  lemma {:induction false} PlaceFrom(dir: string, chain: seq<string>, i: nat, d: string) returns (k: nat)
    requires IsChain(dir, chain) && i < |chain| && AtOrBelow(chain[i], d) && d != "."
    ensures i <= k < |chain| && chain[k] == d
    decreases |chain| - i
  {
    if chain[i] == d {
      k := i;
    } else {
      assert chain[i] != "";
      ParentIsNearest(chain[i], d);
      assert chain[i + 1] == DotIsRoot(Parent(chain[i]));
      k := PlaceFrom(dir, chain, i + 1, d);
    }
  }

  lemma PlaceOnChain(dir: string, chain: seq<string>, d: string) returns (k: nat)
    requires IsChain(dir, chain) && IsAbove(dir, d)
    ensures k < |chain| && chain[k] == d
  {
    k := PlaceFrom(dir, chain, 0, d);
  }

  lemma {:induction false} ChainShrinks(dir: string, chain: seq<string>, i: nat, j: nat)
    requires IsChain(dir, chain) && i < j < |chain|
    ensures |chain[j]| < |chain[i]|
    decreases j
  {
    assert chain[j - 1] != "" && chain[j - 1 + 1] == DotIsRoot(Parent(chain[j - 1]));
    if i < j - 1 {
      ChainShrinks(dir, chain, i, j - 1);
    }
  }

  lemma {:induction false} ChainIsAbove(dir: string, chain: seq<string>, i: nat, j: nat)
    requires IsChain(dir, chain) && i <= j < |chain|
    ensures AtOrBelow(chain[i], chain[j])
    decreases j
  {
    if i < j {
      var below := chain[j - 1];
      assert below != "" && chain[j - 1 + 1] == DotIsRoot(Parent(below));
      assert AtOrBelow(below, chain[j]) by {
        ParentIsAbove(below);
      }
      ChainIsAbove(dir, chain, i, j - 1);
      AtOrBelowIsTransitive(chain[i], below, chain[j]);
    }
  }

  /** On the chain, being at or below by text is the same as coming earlier. */
  lemma ChainClimbs(dir: string, chain: seq<string>, i: nat, j: nat)
    requires IsChain(dir, chain) && i < |chain| && j < |chain|
    ensures AtOrBelow(chain[i], chain[j]) <==> i <= j
  {
    if i <= j {
      ChainIsAbove(dir, chain, i, j);
    } else {
      ChainShrinks(dir, chain, j, i);
      assert chain[j] != "";
    }
  }

  /** The first place of a chain where something holds, or its length. */
  ghost predicate IsFirst(chain: seq<string>, holds: seq<bool>, r: nat) {
    |holds| == |chain| && r <= |chain| && (r < |chain| ==> holds[r]) && forall k :: 0 <= k < r ==> !holds[k]
  }

  function First(holds: seq<bool>): (r: nat)
    ensures r <= |holds| && (r < |holds| ==> holds[r]) && forall k :: 0 <= k < r ==> !holds[k]
  {
    if holds == [] || holds[0] then 0 else 1 + First(holds[1..])
  }

  /******* The workspace *******/

  type ConfigFiles = map<string, map<string, ConfigFile>>

  function FileOf(files: ConfigFiles, rel: string, group: string): Option<ConfigFile> {
    if rel in files && group in files[rel] then Some(files[rel][group]) else None
  }

  /** A declared file that loads. */
  function ConfigOf(files: ConfigFiles, load: ConfigFile -> Option<TsConfig>, rel: string, group: string): Option<TsConfig> {
    match FileOf(files, rel, group)
    case None => None
    case Some(f) => load(f)
  }

  /** A directory and the config found in it. */
  datatype Found = Found(rel: string, config: TsConfig)

  function FoundIn(files: ConfigFiles, load: ConfigFile -> Option<TsConfig>, dir: string, group: string): Option<Found> {
    match ConfigOf(files, load, dir, group)
    case None => None
    case Some(c) => Some(Found(dir, c))
  }

  /** Which directories of a chain have a config for the group. */
  function HaveConfig(files: ConfigFiles, load: ConfigFile -> Option<TsConfig>, chain: seq<string>, group: string): (r: seq<bool>)
    ensures |r| == |chain| && forall k :: 0 <= k < |r| ==> r[k] == ConfigOf(files, load, chain[k], group).Some?
  {
    seq(|chain|, k requires 0 <= k < |chain| => ConfigOf(files, load, chain[k], group).Some?)
  }

  function HavePackage(hasPackageJson: string -> bool, chain: seq<string>): (r: seq<bool>)
    ensures |r| == |chain| && forall k :: 0 <= k < |r| ==> r[k] == hasPackageJson(chain[k])
  {
    seq(|chain|, k requires 0 <= k < |chain| => hasPackageJson(chain[k]))
  }

  /** A directory at or above another, by the text of the two alone; the root is "". */
  predicate IsAbove(dir: string, d: string) {
    d != "." && AtOrBelow(DotIsRoot(dir), d)
  }

  /** Among the directories above dir for which something holds, d is the deepest one. */
  ghost predicate IsDeepest(dir: string, holds: string -> bool, d: string) {
    && IsAbove(dir, d) && holds(d)
    && forall e :: IsAbove(dir, e) && holds(e) ==> AtOrBelow(d, e)
  }

  ghost predicate NoneHolds(dir: string, holds: string -> bool) {
    forall e :: IsAbove(dir, e) ==> !holds(e)
  }

  ghost function HasConfig(files: ConfigFiles, load: ConfigFile -> Option<TsConfig>, group: string): string -> bool {
    (d: string) => ConfigOf(files, load, d, group).Some?
  }

  /**
   What FindConfig is to return: the deepest directory at or above dir with the group's config, else
   the deepest one with the default config; and the deepest package.json directory as the anchor, if
   that is at or below it.
   */
  ghost predicate IsFound(files: ConfigFiles, load: ConfigFile -> Option<TsConfig>, hasPackageJson: string -> bool,
                          dir: string, group: string, anchor: string, rel: string, config: Option<TsConfig>) {
    var own, default := HasConfig(files, load, group), HasConfig(files, load, "");
    if NoneHolds(dir, own) && NoneHolds(dir, default) then anchor == "" && rel == "" && config == None
    else
      && (if NoneHolds(dir, own) then IsDeepest(dir, default, rel) && config == ConfigOf(files, load, rel, "")
          else IsDeepest(dir, own, rel) && config == ConfigOf(files, load, rel, group))
      && IsAnchor(dir, hasPackageJson, rel, anchor)
  }

  ghost predicate IsAnchor(dir: string, hasPackageJson: string -> bool, rel: string, anchor: string) {
    if forall e :: IsAbove(dir, e) && hasPackageJson(e) ==> !AtOrBelow(e, rel) then anchor == rel
    else IsDeepest(dir, hasPackageJson, anchor) && AtOrBelow(anchor, rel)
  }

  /** The first place of the chain where something holds is the deepest directory above for which it does. */
  lemma FirstIsDeepest(dir: string, chain: seq<string>, holds: string -> bool, r: nat)
    requires IsChain(dir, chain) && r <= |chain|
    requires (r < |chain| ==> holds(chain[r])) && forall k :: 0 <= k < r ==> !holds(chain[k])
    ensures r < |chain| ==> IsDeepest(dir, holds, chain[r])
    ensures r == |chain| ==> NoneHolds(dir, holds)
  {
    forall e | IsAbove(dir, e) && holds(e) ensures r < |chain| && AtOrBelow(chain[r], e) {
      var k := PlaceOnChain(dir, chain, e);
      ChainClimbs(dir, chain, r, k);
    }
    if r < |chain| {
      ChainIsAbove(dir, chain, 0, r);
      assert r > 0 ==> chain[r - 1 + 1] == DotIsRoot(Parent(chain[r - 1]));
    }
  }

  lemma FoundOwn(files: ConfigFiles, load: ConfigFile -> Option<TsConfig>, hasPackageJson: string -> bool,
                 dir: string, group: string, anchor: string, rel: string)
    requires IsDeepest(dir, HasConfig(files, load, group), rel) && IsAnchor(dir, hasPackageJson, rel, anchor)
    ensures IsFound(files, load, hasPackageJson, dir, group, anchor, rel, ConfigOf(files, load, rel, group))
  {
  }

  lemma FoundDefault(files: ConfigFiles, load: ConfigFile -> Option<TsConfig>, hasPackageJson: string -> bool,
                     dir: string, group: string, anchor: string, rel: string)
    requires NoneHolds(dir, HasConfig(files, load, group))
    requires IsDeepest(dir, HasConfig(files, load, ""), rel) && IsAnchor(dir, hasPackageJson, rel, anchor)
    ensures IsFound(files, load, hasPackageJson, dir, group, anchor, rel, ConfigOf(files, load, rel, ""))
  {
  }

  /** Not past the first directory with a config, the one at hand has a config exactly if it is the first. */
  lemma ConfigDecides(files: ConfigFiles, load: ConfigFile -> Option<TsConfig>, chain: seq<string>, group: string, r: nat, i: nat)
    requires IsFirst(chain, HaveConfig(files, load, chain, group), r) && i < |chain| && i <= r
    ensures var c := ConfigOf(files, load, chain[i], group);
      && (c.Some? <==> i == r)
      && (c.Some? ==> FoundIn(files, load, chain[r], group) == Some(Found(chain[i], c.value)))
  {
    assert HaveConfig(files, load, chain, group)[i] == ConfigOf(files, load, chain[i], group).Some?;
  }

  lemma PackageDecides(hasPackageJson: string -> bool, chain: seq<string>, r: nat, i: nat)
    requires IsFirst(chain, HavePackage(hasPackageJson, chain), r) && i < |chain| && i <= r
    ensures hasPackageJson(chain[i]) <==> i == r
  {
    assert HavePackage(hasPackageJson, chain)[i] == hasPackageJson(chain[i]);
  }

  lemma ChainGoesOn(dir: string, chain: seq<string>, i: nat)
    requires IsChain(dir, chain) && i < |chain| && chain[i] != ""
    ensures i + 1 < |chain| && chain[i + 1] == DotIsRoot(Parent(chain[i]))
  {
  }

  /** The chain of a directory, and where on it the configs and a package.json are first. */
  lemma FirstPlaces(files: ConfigFiles, load: ConfigFile -> Option<TsConfig>, hasPackageJson: string -> bool,
                    dir: string, group: string)
    returns (chain: seq<string>, g: nat, d: nat, p: nat)
    ensures IsChain(dir, chain)
    ensures IsFirst(chain, HaveConfig(files, load, chain, group), g) && IsFirst(chain, HaveConfig(files, load, chain, ""), d)
    ensures IsFirst(chain, HavePackage(hasPackageJson, chain), p)
  {
    chain := Chain(dir);
    ChainIsChain(dir);
    g, d := First(HaveConfig(files, load, chain, group)), First(HaveConfig(files, load, chain, ""));
    p := First(HavePackage(hasPackageJson, chain));
  }

  class TsWorkspace {
    var configFiles: ConfigFiles
    const load: ConfigFile -> Option<TsConfig>
    const hasPackageJson: string -> bool

    constructor (load: ConfigFile -> Option<TsConfig>, hasPackageJson: string -> bool)
      ensures configFiles == map[] && this.load == load && this.hasPackageJson == hasPackageJson
    {
      configFiles := map[];
      this.load := load;
      this.hasPackageJson := hasPackageJson;
    }

    /** The first file declared for a directory and group stays. */
    method SetTsConfigFile(rel: string, group: string, file: ConfigFile)
      modifies this`configFiles
      ensures FileOf(configFiles, rel, group)
        == if FileOf(old(configFiles), rel, group).Some? then FileOf(old(configFiles), rel, group) else Some(file)
      ensures forall r, g :: r != rel || g != group ==> FileOf(configFiles, r, g) == FileOf(old(configFiles), r, g)
    {
      if rel !in configFiles {
        configFiles := configFiles[rel := map[]];
      }
      if group in configFiles[rel] {
        return;
      }
      configFiles := configFiles[rel := configFiles[rel][group := file]];
    }

    method GetTsConfigFile(rel: string, group: string) returns (r: Option<TsConfig>)
      ensures r == ConfigOf(configFiles, load, rel, group)
    {
      if rel in configFiles && group in configFiles[rel] {
        r := load(configFiles[rel][group]);
      } else {
        r := None;
      }
    }

    /** The climb of FindConfig, which ends for every directory text. */
    method Climb(start: string, group: string, ghost chain: seq<string>, ghost g: nat, ghost d: nat, ghost p: nat)
      returns (own: Option<Found>, fallback: Option<Found>, packageJsonDir: Option<string>)
      requires IsChain(start, chain)
      requires IsFirst(chain, HaveConfig(configFiles, load, chain, group), g)
      requires IsFirst(chain, HaveConfig(configFiles, load, chain, ""), d)
      requires IsFirst(chain, HavePackage(hasPackageJson, chain), p)
      ensures own == if group != "" && g < |chain| then FoundIn(configFiles, load, chain[g], group) else None
      ensures own.None? ==> fallback == if d < |chain| then FoundIn(configFiles, load, chain[d], "") else None
      ensures packageJsonDir.Some? ==> p < |chain| && packageJsonDir.value == chain[p]
      ensures packageJsonDir.None? ==> p >= if own.Some? then g else d
    {
      ghost var i := 0;
      own, fallback, packageJsonDir := None, None, None;
      var dir := start;
      while true
        invariant i < |chain| && chain[i] == DotIsRoot(dir)
        invariant own.None? && i <= if group != "" then g else d
        invariant fallback == if d < i then FoundIn(configFiles, load, chain[d], "") else None
        invariant packageJsonDir == if p < i then Some(chain[p]) else None
        decreases |chain| - i
      {
        dir := DotIsRoot(dir);
        if group != "" {
          ConfigDecides(configFiles, load, chain, group, g, i);
          var c := GetTsConfigFile(dir, group);
          if c.Some? {
            own := Some(Found(dir, c.value));
            break;
          }
        }
        if fallback.None? {
          ConfigDecides(configFiles, load, chain, "", d, i);
          var c := GetTsConfigFile(dir, "");
          if c.Some? {
            fallback := Some(Found(dir, c.value));
            if group == "" {
              break;
            }
          }
        }
        if p >= i {
          PackageDecides(hasPackageJson, chain, p, i);
        }
        if packageJsonDir.None? && hasPackageJson(dir) {
          packageJsonDir := Some(dir);
        }
        if dir == "" {
          break;
        }
        ChainGoesOn(start, chain, i);
        dir := Parent(dir);
        i := i + 1;
      }
    }

    /** FindConfig. */
    method Find(start: string, group: string) returns (anchor: string, rel: string, config: Option<TsConfig>)
      ensures IsFound(configFiles, load, hasPackageJson, start, group, anchor, rel, config)
    {
      ghost var chain, g, d, p := FirstPlaces(configFiles, load, hasPackageJson, start, group);
      var own, fallback, packageJsonDir := Climb(start, group, chain, g, d, p);
      var found := if own.Some? then own else fallback;
      if found.None? {
        NothingFound(configFiles, load, hasPackageJson, start, group, chain, g, d);
        return "", "", None;
      }
      rel, config := found.value.rel, Some(found.value.config);
      anchor := rel;
      if packageJsonDir.Some? && AtOrBelow(packageJsonDir.value, rel) {
        anchor := packageJsonDir.value;
      }
      AnchorIsNearest(start, chain, hasPackageJson, p, if own.Some? then g else d);
      ConfigFound(configFiles, load, hasPackageJson, start, group, chain, g, d, anchor, own.Some?);
    }
  }

  lemma NothingFound(files: ConfigFiles, load: ConfigFile -> Option<TsConfig>, hasPackageJson: string -> bool,
                     dir: string, group: string, chain: seq<string>, g: nat, d: nat)
    requires IsChain(dir, chain) && g == d == |chain|
    requires IsFirst(chain, HaveConfig(files, load, chain, group), g) && IsFirst(chain, HaveConfig(files, load, chain, ""), d)
    ensures IsFound(files, load, hasPackageJson, dir, group, "", "", None)
  {
    FirstConfigIsDeepest(files, load, dir, group, chain, g);
    FirstConfigIsDeepest(files, load, dir, "", chain, d);
  }

  lemma FirstConfigIsDeepest(files: ConfigFiles, load: ConfigFile -> Option<TsConfig>, dir: string, group: string,
                             chain: seq<string>, r: nat)
    requires IsChain(dir, chain) && IsFirst(chain, HaveConfig(files, load, chain, group), r)
    ensures r < |chain| ==> IsDeepest(dir, HasConfig(files, load, group), chain[r])
    ensures r == |chain| ==> NoneHolds(dir, HasConfig(files, load, group))
  {
    forall k | 0 <= k < |chain|
      ensures HaveConfig(files, load, chain, group)[k] <==> HasConfig(files, load, group)(chain[k])
    {
    }
    FirstIsDeepest(dir, chain, HasConfig(files, load, group), r);
  }

  /** What the climb returns, when it has found the group's own config, or else only the default one. */
  lemma ConfigFound(files: ConfigFiles, load: ConfigFile -> Option<TsConfig>, hasPackageJson: string -> bool,
                    dir: string, group: string, chain: seq<string>, g: nat, d: nat, anchor: string, own: bool)
    requires IsChain(dir, chain)
    requires IsFirst(chain, HaveConfig(files, load, chain, group), g) && IsFirst(chain, HaveConfig(files, load, chain, ""), d)
    requires if own then g < |chain| else d < |chain| && (group != "" ==> g == |chain|)
    requires IsAnchor(dir, hasPackageJson, chain[if own then g else d], anchor)
    ensures var rel := chain[if own then g else d];
      IsFound(files, load, hasPackageJson, dir, group, anchor, rel, ConfigOf(files, load, rel, if own then group else ""))
  {
    FirstConfigIsDeepest(files, load, dir, group, chain, g);
    FirstConfigIsDeepest(files, load, dir, "", chain, d);
    if own || group == "" {
      FoundOwn(files, load, hasPackageJson, dir, group, anchor, chain[if own then g else d]);
    } else {
      FoundDefault(files, load, hasPackageJson, dir, group, anchor, chain[d]);
    }
  }

  /** A package.json further up than the config is not below it. */
  lemma AnchorIsNearest(dir: string, chain: seq<string>, holds: string -> bool, p: nat, r: nat)
    requires IsChain(dir, chain) && p <= |chain| && r < |chain|
    requires IsFirst(chain, HavePackage(holds, chain), p)
    ensures IsAnchor(dir, holds, chain[r], if p <= r then chain[p] else chain[r])
    ensures p < |chain| ==> (AtOrBelow(chain[p], chain[r]) <==> p <= r)
  {
    forall k | 0 <= k < |chain| ensures HavePackage(holds, chain)[k] <==> holds(chain[k]) {
    }
    FirstIsDeepest(dir, chain, holds, p);
    if p < |chain| {
      ChainClimbs(dir, chain, p, r);
    }
    if p > r {
      forall e | IsAbove(dir, e) && holds(e) ensures !AtOrBelow(e, chain[r]) {
        var k := PlaceOnChain(dir, chain, e);
        ChainClimbs(dir, chain, k, r);
      }
    }
  }
}
