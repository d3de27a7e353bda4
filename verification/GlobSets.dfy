/** Matching many glob patterns at once, by buckets, and the cache of parsed patterns. */
module GlobSets {
  import opened Wrappers
  import opened Strings
  import opened Glob

  datatype Buckets = Buckets(
    exacts: set<string>,
    prePosts: map<string, seq<(bool, string)>>,
    prefixDirs: seq<string>,
    preGlobs: map<string, seq<string>>,
    postGlobs: map<string, seq<string>>,
    globs: seq<string>
  )

  const EMPTY := Buckets({}, map[], [], map[], map[], [])

  function Append<T>(m: map<string, seq<T>>, key: string, v: T): map<string, seq<T>> {
    m[key := (if key in m then m[key] else []) + [v]]
  }

  /** The closures over the buckets, one after the other. */
  ghost predicate Accepts(x: Syntax, b: Buckets, p: string)
    requires Lawful(x)
  {
    || p in b.exacts
    || InPrePosts(b.prePosts, p)
    || InPrefixDirs(b.prefixDirs, p)
    || InPreGlobs(x, b.preGlobs, p)
    || InPostGlobs(x, b.postGlobs, p)
    || InGlobs(x, b.globs, p)
  }

  ghost predicate InPrefixDirs(dirs: seq<string>, p: string) {
    exists i :: 0 <= i < |dirs| && PrefixDirMatches(dirs[i], p)
  }

  ghost predicate InGlobs(x: Syntax, globs: seq<string>, p: string)
    requires Lawful(x)
  {
    exists i :: 0 <= i < |globs| && Matches(x, globs[i], true, p)
  }

  ghost predicate InPrePosts(m: map<string, seq<(bool, string)>>, p: string) {
    exists pre, i :: pre in m && 0 <= i < |m[pre]| && HasPrefix(p, pre)
      && PrePostMatches(PrePost(pre, m[pre][i].0, m[pre][i].1), p)
  }

  ghost predicate InPreGlobs(x: Syntax, m: map<string, seq<string>>, p: string)
    requires Lawful(x)
  {
    exists pre, i :: pre in m && 0 <= i < |m[pre]| && HasPrefix(p, pre) && Matches(x, m[pre][i], true, p)
  }

  ghost predicate InPostGlobs(x: Syntax, m: map<string, seq<string>>, p: string)
    requires Lawful(x)
  {
    exists post, i :: post in m && 0 <= i < |m[post]| && HasSuffix(p, post) && Matches(x, m[post][i], true, p)
  }

  /** Some pattern of a list, on its own, accepts the path. */
  ghost predicate SomeAccepts(x: Syntax, exps: seq<string>, p: string)
    requires Lawful(x)
  {
    exists i :: 0 <= i < |exps| && Fast(x, exps[i], p)
  }

  /** A pattern put in its bucket; the shapes are tried in another order than for a single pattern. */
  function Add(b: Buckets, exp: string): Buckets {
    if IsPlain(exp) then b.(exacts := b.exacts + {exp})
    else if PrePostOf(exp).Some? then
      var g := PrePostOf(exp).value;
      b.(prePosts := Append(b.prePosts, g.pre, (g.star, g.ext)))
    else if PrefixDirOf(exp).Some? then b.(prefixDirs := b.prefixDirs + [PrefixDirOf(exp).value])
    else if PreOf(exp).Some? then b.(preGlobs := Append(b.preGlobs, PreOf(exp).value, exp))
    else if PostOf(exp).Some? then b.(postGlobs := Append(b.postGlobs, PostOf(exp).value, exp))
    else b.(globs := b.globs + [exp])
  }

  lemma ShapesAreDisjoint(exp: string)
    requires PrePostOf(exp).Some?
    ensures PrefixDirOf(exp).None?
  {
    var g := PrePostOf(exp).value;
    assert exp[|exp| - 1] == g.ext[|g.ext| - 1];
    assert Plain(exp[|exp| - 1]) && !Plain("/**"[2]);
  }

  lemma AppendIn<T>(m: map<string, seq<T>>, key: string, v: T)
    ensures var a := Append(m, key, v);
      && (forall k, i :: k in m && 0 <= i < |m[k]| ==> k in a && i < |a[k]| && a[k][i] == m[k][i])
      && (forall k, i :: k in a && 0 <= i < |a[k]| ==>
          (k in m && i < |m[k]| && a[k][i] == m[k][i]) || (k == key && a[k][i] == v))
      && key in a && |a[key]| > 0 && a[key][|a[key]| - 1] == v
  {
  }

  lemma AddPrePost(m: map<string, seq<(bool, string)>>, g: PrePost, p: string)
    ensures InPrePosts(Append(m, g.pre, (g.star, g.ext)), p) <==> InPrePosts(m, p) || PrePostMatches(g, p)
  {
    var a: map<string, seq<(bool, string)>> := Append(m, g.pre, (g.star, g.ext));
    AppendIn(m, g.pre, (g.star, g.ext));
    assert a[g.pre][|a[g.pre]| - 1] == (g.star, g.ext);
  }

  lemma AddPreGlob(x: Syntax, m: map<string, seq<string>>, pre: string, exp: string, p: string)
    requires Lawful(x)
    ensures InPreGlobs(x, Append(m, pre, exp), p) <==> InPreGlobs(x, m, p) || (HasPrefix(p, pre) && Matches(x, exp, true, p))
  {
    var a := Append(m, pre, exp);
    AppendIn(m, pre, exp);
    assert a[pre][|a[pre]| - 1] == exp;
  }

  lemma AddPostGlob(x: Syntax, m: map<string, seq<string>>, post: string, exp: string, p: string)
    requires Lawful(x)
    ensures InPostGlobs(x, Append(m, post, exp), p) <==> InPostGlobs(x, m, p) || (HasSuffix(p, post) && Matches(x, exp, true, p))
  {
    var a := Append(m, post, exp);
    AppendIn(m, post, exp);
    assert a[post][|a[post]| - 1] == exp;
  }

  lemma AddPrefixDir(dirs: seq<string>, dir: string, p: string)
    ensures InPrefixDirs(dirs + [dir], p) <==> InPrefixDirs(dirs, p) || PrefixDirMatches(dir, p)
  {
    assert (dirs + [dir])[|dirs|] == dir;
    if InPrefixDirs(dirs, p) {
      var i :| 0 <= i < |dirs| && PrefixDirMatches(dirs[i], p);
      assert (dirs + [dir])[i] == dirs[i];
    }
  }

  lemma AddGlob(x: Syntax, globs: seq<string>, exp: string, p: string)
    requires Lawful(x)
    ensures InGlobs(x, globs + [exp], p) <==> InGlobs(x, globs, p) || Matches(x, exp, true, p)
  {
    assert (globs + [exp])[|globs|] == exp;
    if InGlobs(x, globs, p) {
      var i :| 0 <= i < |globs| && Matches(x, globs[i], true, p);
      assert (globs + [exp])[i] == globs[i];
    }
  }

  /** Adding a pattern adds exactly the paths its own matcher accepts. */
  lemma AddAccepts(x: Syntax, b: Buckets, exp: string, p: string)
    requires Lawful(x)
    ensures Accepts(x, Add(b, exp), p) <==> Accepts(x, b, p) || Fast(x, exp, p)
  {
    var c := Add(b, exp);
    if IsPlain(exp) {
      assert c == b.(exacts := c.exacts);
    } else if PrePostOf(exp).Some? {
      ShapesAreDisjoint(exp);
      AddPrePost(b.prePosts, PrePostOf(exp).value, p);
      assert c == b.(prePosts := c.prePosts);
    } else if PrefixDirOf(exp).Some? {
      AddPrefixDir(b.prefixDirs, PrefixDirOf(exp).value, p);
      assert c == b.(prefixDirs := c.prefixDirs);
    } else if PreOf(exp).Some? {
      AddPreGlob(x, b.preGlobs, PreOf(exp).value, exp, p);
      assert c == b.(preGlobs := c.preGlobs);
    } else if PostOf(exp).Some? {
      AddPostGlob(x, b.postGlobs, PostOf(exp).value, exp, p);
      assert c == b.(postGlobs := c.postGlobs);
    } else {
      AddGlob(x, b.globs, exp, p);
      assert c == b.(globs := c.globs);
    }
  }

  lemma SomeAcceptsOneMore(x: Syntax, exps: seq<string>, n: nat, p: string)
    requires Lawful(x) && n < |exps|
    ensures SomeAccepts(x, exps[..n + 1], p) <==> SomeAccepts(x, exps[..n], p) || Fast(x, exps[n], p)
  {
    if SomeAccepts(x, exps[..n], p) {
      var i :| 0 <= i < n && Fast(x, exps[..n][i], p);
      assert exps[..n + 1][i] == exps[..n][i];
    }
    if Fast(x, exps[n], p) {
      assert exps[..n + 1][n] == exps[n];
    }
  }

  predicate AllValid(valid: string -> bool, exps: seq<string>) {
    forall i :: 0 <= i < |exps| ==> valid(exps[i])
  }

  /** parseGlobExpressions: the buckets accept exactly what some pattern accepts on its own. */
  method FillBuckets(ghost x: Syntax, valid: string -> bool, exps: seq<string>) returns (r: Result<Buckets>)
    requires Lawful(x)
    ensures r.Ok? <==> AllValid(valid, exps)
    ensures r.Ok? ==> forall p :: Accepts(x, r.value, p) <==> SomeAccepts(x, exps, p)
  {
    var b := EMPTY;
    for i := 0 to |exps|
      invariant AllValid(valid, exps[..i])
      invariant forall p :: Accepts(x, b, p) <==> SomeAccepts(x, exps[..i], p)
    {
      if !valid(exps[i]) {
        return Err;
      }
      forall p ensures Accepts(x, Add(b, exps[i]), p) <==> SomeAccepts(x, exps[..i + 1], p) {
        AddAccepts(x, b, exps[i], p);
        SomeAcceptsOneMore(x, exps, i, p);
      }
      b := Add(b, exps[i]);
    }
    assert exps[..|exps|] == exps;
    return Ok(b);
  }

  /******* The cache of parsed patterns *******/

  const NUL := 0 as char

  predicate NulFree(exps: seq<string>) {
    forall i :: 0 <= i < |exps| ==> NUL !in exps[i]
  }

  function JoinNul(exps: seq<string>): string
    requires exps != []
  {
    if |exps| == 1 then exps[0] else exps[0] + [NUL] + JoinNul(exps[1..])
  }

  /** Different lists of patterns without NUL have different keys. */
  lemma {:induction false} JoinNulIsInjective(a: seq<string>, b: seq<string>)
    requires a != [] && b != [] && NulFree(a) && NulFree(b) && JoinNul(a) == JoinNul(b)
    ensures a == b
  {
    if |a| > 1 {
      CutIsUnique(JoinNul(a), NUL, a[0], JoinNul(a[1..]));
    }
    if |b| > 1 {
      CutIsUnique(JoinNul(b), NUL, b[0], JoinNul(b[1..]));
    }
    assert (|a| > 1 <==> NUL in JoinNul(a)) && (|b| > 1 <==> NUL in JoinNul(b));
    if |a| > 1 {
      JoinNulIsInjective(a[1..], b[1..]);
      assert a == [a[0]] + a[1..] && b == [b[0]] + b[1..];
    }
  }

  datatype Matcher = Single(exp: string) | Many(buckets: Buckets)

  ghost predicate Accepted(x: Syntax, m: Matcher, p: string)
    requires Lawful(x)
  {
    match m
    case Single(exp) => Fast(x, exp, p)
    case Many(b) => Accepts(x, b, p)
  }

  /** The matcher is the one for a list of patterns. */
  ghost predicate MatcherFor(x: Syntax, m: Matcher, exps: seq<string>)
    requires Lawful(x)
  {
    forall p :: Accepted(x, m, p) <==> SomeAccepts(x, exps, p)
  }

  /** What ParseGlobExpressionsWithExcludes returns. */
  datatype Filter = Including(wanted: Matcher) | NotExcluding(unwanted: Matcher) | Both(wanted: Matcher, unwanted: Matcher)

  ghost predicate Passes(x: Syntax, f: Filter, p: string)
    requires Lawful(x)
  {
    match f
    case Including(wanted) => Accepted(x, wanted, p)
    case NotExcluding(unwanted) => !Accepted(x, unwanted, p)
    case Both(wanted, unwanted) => Accepted(x, wanted, p) && !Accepted(x, unwanted, p)
  }

  /** Which list of patterns each key was stored for, after one more list was asked for. */
  ghost function Recorded(valid: string -> bool, origin: map<string, seq<string>>, exps: seq<string>): map<string, seq<string>> {
    if exps == [] || JoinNul(exps) in origin || !AllValid(valid, exps) then origin else origin[JoinNul(exps) := exps]
  }

  /** Nobody has asked for another list with the key of this one. */
  ghost predicate OwnsKey(origin: map<string, seq<string>>, exps: seq<string>) {
    exps != [] && JoinNul(exps) in origin ==> origin[JoinNul(exps)] == exps
  }

  ghost predicate NulFreeOrigins(origin: map<string, seq<string>>) {
    forall key :: key in origin ==> NulFree(origin[key])
  }

  /** The excludes are asked for first, and the includes only if those are accepted. */
  ghost function RecordedBoth(
    valid: string -> bool, origin: map<string, seq<string>>, includes: seq<string>, excludes: seq<string>
  ): map<string, seq<string>> {
    var parsed := Recorded(valid, origin, excludes);
    if Holds(parsed, excludes) then Recorded(valid, parsed, includes) else parsed
  }

  ghost predicate Holds(origin: map<string, seq<string>>, exps: seq<string>) {
    exps == [] || JoinNul(exps) in origin
  }

  /** The list whose matcher is answered for a list. */
  ghost function ListFor(origin: map<string, seq<string>>, exps: seq<string>): seq<string>
    requires Holds(origin, exps)
  {
    if exps == [] then [] else origin[JoinNul(exps)]
  }

  ghost predicate Keyed(origin: map<string, seq<string>>) {
    forall key :: key in origin ==> origin[key] != [] && JoinNul(origin[key]) == key
  }

  /** A path passes when it matches an include, or there are none, and no exclude. */
  ghost predicate Filters(x: Syntax, f: Filter, includes: seq<string>, excludes: seq<string>)
    requires Lawful(x)
  {
    forall p :: Passes(x, f, p) <==> ((includes == [] || SomeAccepts(x, includes, p)) && !SomeAccepts(x, excludes, p))
  }

  /** Among patterns without NUL every list has its key to itself. */
  lemma NulFreeListOwnsItsKey(valid: string -> bool, origin: map<string, seq<string>>, exps: seq<string>)
    requires Keyed(origin) && NulFreeOrigins(origin) && NulFree(exps)
    ensures OwnsKey(origin, exps)
    ensures Keyed(Recorded(valid, origin, exps)) && NulFreeOrigins(Recorded(valid, origin, exps))
  {
    if exps != [] && JoinNul(exps) in origin {
      JoinNulIsInjective(origin[JoinNul(exps)], exps);
    }
  }

  lemma NulFreeListsAreTheirOwn(
    valid: string -> bool, origin: map<string, seq<string>>, includes: seq<string>, excludes: seq<string>
  )
    requires forall key :: key in origin ==> AllValid(valid, origin[key])
    requires Keyed(origin) && NulFreeOrigins(origin) && NulFree(includes) && NulFree(excludes)
    ensures var after := RecordedBoth(valid, origin, includes, excludes);
      && NulFreeOrigins(after)
      && (AllValid(valid, excludes) <==> Holds(after, excludes))
      && (AllValid(valid, excludes) ==> (AllValid(valid, includes) <==> Holds(after, includes)))
      && (Holds(after, excludes) ==> ListFor(after, excludes) == excludes)
      && (Holds(after, includes) ==> ListFor(after, includes) == includes)
  {
    var parsed := Recorded(valid, origin, excludes);
    NulFreeListOwnsItsKey(valid, origin, excludes);
    NulFreeListOwnsItsKey(valid, origin, includes);
    NulFreeListOwnsItsKey(valid, parsed, includes);
    NulFreeListOwnsItsKey(valid, parsed, excludes);
  }

  class GlobCache {
    ghost const x: Syntax
    const valid: string -> bool
    var cache: map<string, Matcher>
    /** For each key the list of patterns whose matcher is stored. */
    ghost var origin: map<string, seq<string>>

    constructor (ghost x: Syntax, valid: string -> bool)
      requires Lawful(x)
      ensures Valid() && this.x == x && this.valid == valid && cache == map[]
    {
      this.x := x;
      this.valid := valid;
      cache := map[];
      origin := map[];
    }

    /** Every cached matcher is the right one for the list it was stored for. */
    ghost predicate Valid()
      reads this
    {
      && Lawful(x) && origin.Keys == cache.Keys
      && forall key :: key in cache ==> StoredFor(key, cache[key], origin[key])
    }

    ghost predicate StoredFor(key: string, m: Matcher, exps: seq<string>)
      requires Lawful(x)
    {
      exps != [] && JoinNul(exps) == key && AllValid(valid, exps) && MatcherFor(x, m, exps)
    }

    /** What the cache answers for a list whose key it now has or, when an error is returned, has not. */
    ghost predicate Answers(r: Result<Matcher>, exps: seq<string>)
      requires Valid()
      reads this
    {
      && (r.Ok? <==> exps != [] && JoinNul(exps) in cache)
      && (r.Ok? ==> r.value == cache[JoinNul(exps)] && MatcherFor(x, r.value, origin[JoinNul(exps)]))
    }

    method ParseGlobExpression(exp: string) returns (r: Result<Matcher>)
      requires Valid()
      modifies this
      ensures Valid() && origin == Recorded(valid, old(origin), [exp]) && Answers(r, [exp])
      ensures old(OwnsKey(origin, [exp])) ==> (r.Ok? <==> valid(exp)) && (r.Ok? ==> MatcherFor(x, r.value, [exp]))
    {
      assert JoinNul([exp]) == exp && (AllValid(valid, [exp]) <==> valid([exp][0]));
      if exp in cache {
        return Ok(cache[exp]);
      }
      if !valid(exp) {
        return Err;
      }
      forall p ensures Fast(x, exp, p) <==> SomeAccepts(x, [exp], p) {
        if Fast(x, exp, p) {
          assert Fast(x, [exp][0], p);
        }
      }
      cache, origin := cache[exp := Single(exp)], origin[exp := [exp]];
      return Ok(Single(exp));
    }

    /** A list of patterns accepts what any of them accepts; an empty list is an error. */
    method ParseGlobExpressions(exps: seq<string>) returns (r: Result<Matcher>)
      requires Valid()
      modifies this
      ensures Valid() && origin == Recorded(valid, old(origin), exps) && Answers(r, exps)
      ensures old(OwnsKey(origin, exps)) ==>
        (r.Ok? <==> exps != [] && AllValid(valid, exps)) && (r.Ok? ==> MatcherFor(x, r.value, exps))
    {
      if |exps| == 0 {
        return Err;
      }
      if |exps| == 1 {
        r := ParseGlobExpression(exps[0]);
        assert exps == [exps[0]];
        return;
      }
      var key := JoinNul(exps);
      if key in cache {
        return Ok(cache[key]);
      }
      var filled := FillBuckets(x, valid, exps);
      if filled.Err? {
        return Err;
      }
      cache, origin := cache[key := Many(filled.value)], origin[key := exps];
      return Ok(Many(filled.value));
    }

    /** Paths matching an included pattern, or all paths if there are only excludes, and no excluded one. */
    method ParseGlobExpressionsWithExcludes(includes: seq<string>, excludes: seq<string>) returns (r: Result<Filter>)
      requires Valid()
      modifies this
      ensures Valid() && origin == RecordedBoth(valid, old(origin), includes, excludes)
      ensures r.Ok? <==> (includes != [] || excludes != []) && Holds(origin, includes) && Holds(origin, excludes)
      ensures r.Ok? ==> Filters(x, r.value, ListFor(origin, includes), ListFor(origin, excludes))
      ensures old(NulFreeOrigins(origin)) && NulFree(includes) && NulFree(excludes) ==>
        && NulFreeOrigins(origin)
        && (r.Ok? <==> (includes != [] || excludes != []) && AllValid(valid, includes) && AllValid(valid, excludes))
        && (r.Ok? ==> Filters(x, r.value, includes, excludes))
    {
      if NulFreeOrigins(origin) && NulFree(includes) && NulFree(excludes) {
        NulFreeListsAreTheirOwn(valid, origin, includes, excludes);
      }
      if |excludes| == 0 {
        var all := ParseGlobExpressions(includes);
        if all.Err? {
          return Err;
        }
        return Ok(Including(all.value));
      }
      var unwanted := ParseGlobExpressions(excludes);
      if unwanted.Err? {
        return Err;
      }
      if |includes| == 0 {
        return Ok(NotExcluding(unwanted.value));
      }
      var wanted := ParseGlobExpressions(includes);
      if wanted.Err? {
        return Err;
      }
      return Ok(Both(wanted.value, unwanted.value));
    }
  }

  /** With a NUL in a pattern the keys do collide, and the two matchers differ. */
  lemma NulCollides(x: Syntax)
    requires Lawful(x)
    ensures JoinNul(["a", "b"]) == JoinNul(["a" + [NUL] + "b"])
    ensures SomeAccepts(x, ["a", "b"], "a") && !SomeAccepts(x, ["a" + [NUL] + "b"], "a")
  {
    var exp := "a" + [NUL] + "b";
    assert exp[1] == NUL && !Plain(exp[1]) && exp[1..][0] == NUL;
    assert ["a", "b"][1..] == ["b"];
    PlainMatchesItself(x, "a", true, "a");
    assert Fast(x, ["a", "b"][0], "a");
    assert !Matches(x, exp[1..], false, "a"[1..]);
    assert !Matches(x, exp, true, "a");
    if Fast(x, exp, "a") {
      FastAcceptsNoMore(x, exp, "a");
    }
  }
}
