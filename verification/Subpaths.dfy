/**
 The "imports" and "exports" of a package.json: exact subpaths and subpath patterns, resolved as by
 PACKAGE_IMPORTS_EXPORTS_RESOLVE of the Node.js ECMAScript modules documentation.
 */
module Subpaths {
  import opened Wrappers
  import opened Sorting
  import opened Strings
  import opened StarPatterns

  type Mappings = map<string, seq<string>>

  predicate IsPatternKey(key: string) {
    StarOf(key).Some? && '*' !in StarOf(key).value.suffix
  }

  function SortedTargets(raw: Mappings, key: string): seq<string>
    requires key in raw
  {
    Sort(Leq, raw[key])
  }

  /** Such a key has exactly one star. */
  lemma PatternKeyHasOneStar(key: string)
    ensures IsPatternKey(key)
      <==> exists i :: 0 <= i < |key| && key[i] == '*' && forall j :: 0 <= j < |key| && j != i ==> key[j] != '*'
  {
    if StarOf(key).Some? {
      var s := StarOf(key).value;
      var n := |s.prefix|;
      assert key == s.prefix + "*" + s.suffix && key[n] == '*' && key[n + 1..] == s.suffix;
      if '*' !in s.suffix {
        forall j | 0 <= j < |key| && j != n ensures key[j] != '*' {
          assert if j < n then key[j] == s.prefix[j] else key[j] == s.suffix[j - n - 1];
        }
      } else {
        var k :| 0 <= k < |s.suffix| && s.suffix[k] == '*';
        assert key[n + 1 + k] == '*';
      }
    }
  }

  /** All targets of the key, and no others, in byte order. */
  lemma TargetsAreKept(raw: Mappings, key: string)
    requires key in raw
    ensures multiset(SortedTargets(raw, key)) == multiset(raw[key]) && SortedBy(Leq, SortedTargets(raw, key))
  {
    LeqIsTotalOrder();
    SortSorts(Leq, raw[key]);
  }

  function PatternOf(raw: Mappings, key: string): Entry
    requires key in raw && IsPatternKey(key)
  {
    Entry(StarOf(key).value, SortedTargets(raw, key))
  }

  /** The order of the pattern list: by rank, then by text. */
  predicate Before(a: Entry, b: Entry) {
    Outranks(a.star, b.star)
    || (!Outranks(b.star, a.star) && if a.star.prefix != b.star.prefix then Leq(a.star.prefix, b.star.prefix)
                                     else Leq(a.star.suffix, b.star.suffix))
  }

  lemma BeforeIsTotalPreorder()
    ensures TotalPreorder(Before)
  {
    LeqIsTotalOrder();
  }

  lemma BeforeBothWays(a: Entry, b: Entry)
    requires Before(a, b) && Before(b, a)
    ensures a.star == b.star
  {
    LeqIsTotalOrder();
  }

  function Exacts(raw: Mappings, keys: set<string>): Mappings
    requires keys <= raw.Keys
  {
    map key | key in keys && '*' !in key :: SortedTargets(raw, key)
  }

  function Patterns(raw: Mappings, keys: set<string>): map<string, Entry>
    requires keys <= raw.Keys
  {
    map key | key in keys && IsPatternKey(key) :: PatternOf(raw, key)
  }

  /** indexSubpaths: the keys of a Go map come in any order; keys with several stars are dropped. */
  method IndexSubpaths(raw: Mappings) returns (exact: Mappings, patterns: seq<Entry>)
    ensures exact == Exacts(raw, raw.Keys)
    ensures Lists(Patterns(raw, raw.Keys), patterns) && SortedBy(Before, patterns)
  {
    exact, patterns := map[], [];
    var rest := raw.Keys;
    while rest != {}
      invariant rest <= raw.Keys
      invariant exact == Exacts(raw, raw.Keys - rest)
      invariant Lists(Patterns(raw, raw.Keys - rest), patterns)
      decreases rest
    {
      var key :| key in rest;
      var targets := Sort(Leq, raw[key]);
      IndexOneMore(raw, raw.Keys - rest, key);
      assert raw.Keys - (rest - {key}) == raw.Keys - rest + {key};
      if StarOf(key).None? {
        exact := exact[key := targets];
      } else if '*' !in StarOf(key).value.suffix {
        ListOneMore(Patterns(raw, raw.Keys - rest), patterns, PatternOf(raw, key));
        patterns := patterns + [Entry(StarOf(key).value, targets)];
      }
      rest := rest - {key};
    }
    assert raw.Keys - {} == raw.Keys;
    BeforeIsTotalPreorder();
    var sorted := SortEntries(Before, patterns);
    ListIsPermuted(Patterns(raw, raw.Keys), patterns, sorted);
    patterns := sorted;
  }

  lemma IndexOneMore(raw: Mappings, keys: set<string>, key: string)
    requires keys <= raw.Keys && key in raw && key !in keys
    ensures Exacts(raw, keys + {key})
      == if '*' !in key then Exacts(raw, keys)[key := SortedTargets(raw, key)] else Exacts(raw, keys)
    ensures Patterns(raw, keys + {key})
      == if IsPatternKey(key) then Patterns(raw, keys)[key := PatternOf(raw, key)] else Patterns(raw, keys)
  {
  }

  /** So the list does not depend on the order of the map, nor on the sort. */
  lemma IndexIsUnique(raw: Mappings, a: seq<Entry>, b: seq<Entry>)
    requires Lists(Patterns(raw, raw.Keys), a) && SortedBy(Before, a)
    requires Lists(Patterns(raw, raw.Keys), b) && SortedBy(Before, b)
    ensures a == b
  {
    BeforeIsTotalPreorder();
    forall p, q | p in a && q in a && Before(p, q) && Before(q, p) ensures p == q {
      BeforeBothWays(p, q);
    }
    SortedListIsUnique(Before, Patterns(raw, raw.Keys), a, b);
  }

  /******* Resolution *******/

  /** resolveSubpath's test: what "*" stands for must not be empty. */
  predicate Applies(s: Star, specifier: string) {
    |specifier| > |s.prefix| + |s.suffix| && Fits(s, specifier)
  }

  function Substituted(targets: seq<string>, matched: string): (r: seq<string>)
    ensures |r| == |targets| && forall i :: 0 <= i < |r| ==> r[i] == ReplaceAll(targets[i], '*', matched)
  {
    seq(|targets|, i requires 0 <= i < |targets| => ReplaceAll(targets[i], '*', matched))
  }

  function Resolve(exact: Mappings, patterns: seq<Entry>, specifier: string): Option<seq<string>> {
    if specifier in exact then Some(exact[specifier]) else FirstApplying(patterns, specifier)
  }

  function FirstApplying(patterns: seq<Entry>, specifier: string): Option<seq<string>> {
    if patterns == [] then None
    else if Applies(patterns[0].star, specifier)
    then Some(Substituted(patterns[0].targets, Matched(patterns[0].star, specifier)))
    else FirstApplying(patterns[1..], specifier)
  }

  method ResolveSubpath(exact: Mappings, patterns: seq<Entry>, specifier: string) returns (r: Option<seq<string>>)
    ensures r == Resolve(exact, patterns, specifier)
  {
    if specifier in exact {
      return Some(exact[specifier]);
    }
    for i := 0 to |patterns|
      invariant FirstApplying(patterns, specifier) == FirstApplying(patterns[i..], specifier)
    {
      var star := patterns[i].star;
      if |specifier| <= |star.prefix| + |star.suffix| || !HasPrefix(specifier, star.prefix) || !HasSuffix(specifier, star.suffix) {
        continue;
      }
      var matched := specifier[|star.prefix|..|specifier| - |star.suffix|];
      var targets: seq<string> := [];
      for k := 0 to |patterns[i].targets|
        invariant targets == Substituted(patterns[i].targets, matched)[..k]
      {
        targets := targets + [ReplaceAll(patterns[i].targets[k], '*', matched)];
      }
      assert targets == Substituted(patterns[i].targets, matched);
      return Some(targets);
    }
    return None;
  }

  /******* PACKAGE_IMPORTS_EXPORTS_RESOLVE *******/

  /** PATTERN_KEY_COMPARE: the position of "*" first, then the length of the key; -1 means that a goes first. */
  function PatternKeyCompare(a: string, b: string): int
    requires IsPatternKey(a) && IsPatternKey(b)
  {
    var baseA, baseB := |StarOf(a).value.prefix|, |StarOf(b).value.prefix|;
    if baseA > baseB then -1
    else if baseB > baseA then 1
    else if |a| > |b| then -1
    else if |b| > |a| then 1
    else 0
  }

  /** The specifier starts with, but is not, the part before "*", and ends with the part after it. */
  predicate NodeMatches(key: string, specifier: string)
    requires IsPatternKey(key)
  {
    var s := StarOf(key).value;
    && HasPrefix(specifier, s.prefix) && specifier != s.prefix
    && (s.suffix == "" || (HasSuffix(specifier, s.suffix) && |specifier| >= |key|))
  }

  /** The key that comes first among those that match. */
  ghost predicate IsBestMatch(raw: Mappings, specifier: string, key: string) {
    && key in raw && IsPatternKey(key) && NodeMatches(key, specifier)
    && forall other :: other in raw && other != key && IsPatternKey(other) && NodeMatches(other, specifier) ==>
      PatternKeyCompare(key, other) == -1
  }

  ghost predicate ResolvesBy(raw: Mappings, specifier: string, targets: seq<string>, key: string) {
    && IsBestMatch(raw, specifier, key) && Applies(StarOf(key).value, specifier)
    && targets == Substituted(SortedTargets(raw, key), Matched(StarOf(key).value, specifier))
  }

  /** The exact key, else the best pattern key. */
  ghost predicate MatchResolves(raw: Mappings, specifier: string, r: Option<seq<string>>) {
    if specifier in raw && '*' !in specifier then r == Some(SortedTargets(raw, specifier))
    else if r.None? then forall key :: key in raw && IsPatternKey(key) ==> !NodeMatches(key, specifier)
    else exists key :: ResolvesBy(raw, specifier, r.value, key)
  }

  /** A specifier ending in a slash is refused first. */
  ghost predicate NodeResolves(raw: Mappings, specifier: string, r: Option<seq<string>>) {
    if HasSuffix(specifier, "/") then r == None else MatchResolves(raw, specifier, r)
  }

  lemma AppliesAsInNode(key: string, specifier: string)
    requires IsPatternKey(key)
    ensures NodeMatches(key, specifier) <==> Applies(StarOf(key).value, specifier)
  {
    var s := StarOf(key).value;
    assert |key| == |s.prefix| + 1 + |s.suffix|;
    if HasPrefix(specifier, s.prefix) && |specifier| == |s.prefix| {
      assert specifier[..|s.prefix|] == specifier;
    }
  }

  lemma {:induction false} FirstApplyingIsFirst(patterns: seq<Entry>, specifier: string) returns (k: nat)
    ensures k <= |patterns| && forall i :: 0 <= i < k ==> !Applies(patterns[i].star, specifier)
    ensures k == |patterns| ==> FirstApplying(patterns, specifier).None?
    ensures k < |patterns| ==> Applies(patterns[k].star, specifier)
    ensures k < |patterns| ==>
      FirstApplying(patterns, specifier) == Some(Substituted(patterns[k].targets, Matched(patterns[k].star, specifier)))
  {
    if patterns == [] || Applies(patterns[0].star, specifier) {
      k := 0;
    } else {
      var j := FirstApplyingIsFirst(patterns[1..], specifier);
      k := j + 1;
    }
  }

  /** A pattern earlier in the sorted list that applies beats every other that applies. */
  lemma FirstIsBest(raw: Mappings, patterns: seq<Entry>, specifier: string, k: nat)
    requires Lists(Patterns(raw, raw.Keys), patterns) && SortedBy(Before, patterns)
    requires k < |patterns| && Applies(patterns[k].star, specifier)
    requires forall i :: 0 <= i < k ==> !Applies(patterns[i].star, specifier)
    ensures IsBestMatch(raw, specifier, KeyOf(patterns[k].star))
  {
    var q := patterns[k];
    assert q in patterns;
    var key := KeyOf(q.star);
    AppliesAsInNode(key, specifier);
    forall other | other in raw && other != key && IsPatternKey(other) && NodeMatches(other, specifier)
      ensures PatternKeyCompare(key, other) == -1
    {
      AppliesAsInNode(other, specifier);
      var o := PatternOf(raw, other);
      assert Patterns(raw, raw.Keys)[other] == o;
      var j :| 0 <= j < |patterns| && patterns[j] == o;
      assert j > k;
      assert Before(q, o);
      if !Outranks(q.star, o.star) {
        EqualRankNeverBothFit(q.star, o.star, specifier);
      }
    }
  }

  lemma ResolvesToBestMatch(raw: Mappings, patterns: seq<Entry>, specifier: string)
    requires Lists(Patterns(raw, raw.Keys), patterns) && SortedBy(Before, patterns)
    ensures MatchResolves(raw, specifier, Resolve(Exacts(raw, raw.Keys), patterns, specifier))
  {
    if !(specifier in raw && '*' !in specifier) {
      var k := FirstApplyingIsFirst(patterns, specifier);
      if k < |patterns| {
        assert patterns[k] in patterns;
        FirstIsBest(raw, patterns, specifier, k);
        assert ResolvesBy(raw, specifier, FirstApplying(patterns, specifier).value, KeyOf(patterns[k].star));
      } else {
        forall key | key in raw && IsPatternKey(key) ensures !NodeMatches(key, specifier) {
          AppliesAsInNode(key, specifier);
          assert Patterns(raw, raw.Keys)[key] in patterns;
        }
      }
    }
  }

  /** Neither an exact key nor a pattern key matches the specifier. */
  ghost predicate NoKeyMatches(raw: Mappings, specifier: string) {
    && !(specifier in raw && '*' !in specifier)
    && forall key :: key in raw && IsPatternKey(key) ==> !NodeMatches(key, specifier)
  }

  /** Specifiers resolve as in Node.js, unless one ends in a slash and some key matches it. */
  lemma ResolvesAsNode(raw: Mappings, patterns: seq<Entry>, specifier: string)
    requires Lists(Patterns(raw, raw.Keys), patterns) && SortedBy(Before, patterns)
    ensures NodeResolves(raw, specifier, Resolve(Exacts(raw, raw.Keys), patterns, specifier))
      <==> (HasSuffix(specifier, "/") ==> NoKeyMatches(raw, specifier))
  {
    ResolvesToBestMatch(raw, patterns, specifier);
  }

  lemma SlashKeyMatches()
    ensures IsPatternKey("#a/*") && NodeMatches("#a/*", "#a/b/")
  {
    var key := "#a/*";
    assert key == "#a/" + "*" + "";
    CutIsUnique(key, '*', "#a/", "");
    assert StarOf(key) == Some(Star("#a/", ""));
  }

  /** Such a specifier: Node.js refuses it, here it resolves. */
  lemma SlashSpecifierResolves(raw: Mappings, patterns: seq<Entry>)
    requires raw == map["#a/*" := ["./x/*"]] && Lists(Patterns(raw, raw.Keys), patterns) && SortedBy(Before, patterns)
    ensures var r := Resolve(Exacts(raw, raw.Keys), patterns, "#a/b/"); r.Some? && !NodeResolves(raw, "#a/b/", r)
  {
    SlashKeyMatches();
    ResolvesAsNode(raw, patterns, "#a/b/");
  }

  lemma BestMatchIsUnique(raw: Mappings, specifier: string, a: string, b: string)
    requires IsBestMatch(raw, specifier, a) && IsBestMatch(raw, specifier, b)
    ensures a == b
  {
  }

  /** What a specifier resolves to is a function of the mappings alone. */
  lemma MatchResolvesOneWay(raw: Mappings, specifier: string, a: Option<seq<string>>, b: Option<seq<string>>)
    requires MatchResolves(raw, specifier, a) && MatchResolves(raw, specifier, b)
    ensures a == b
  {
    if !(specifier in raw && '*' !in specifier) {
      if a.Some? && b.Some? {
        var k :| ResolvesBy(raw, specifier, a.value, k);
        var l :| ResolvesBy(raw, specifier, b.value, l);
        BestMatchIsUnique(raw, specifier, k, l);
      }
    }
  }
}
