/**
 The fast matchers for single glob patterns against the glob semantics of the doublestar library:
 "*" and "?" do not match "/", and "**" bounded by separators matches any number of directories.
 */
module Glob {
  import opened Wrappers
  import opened Strings

  /******* Reference semantics *******/

  /**
   What classes and brace groups at the head of a pattern mean: the length of the construct, the
   characters a class accepts, and the alternatives of a brace group.
   */
  datatype Syntax = Syntax(length: string -> nat, member: (string, char) -> bool, choices: string -> seq<string>)

  ghost predicate Lawful(x: Syntax) {
    forall pat: string :: pat != "" && (pat[0] == '[' || pat[0] == '{') ==> LawfulAt(x, pat)
  }

  /** A construct is closed by a character that is not plain, and a class does not accept a separator. */
  ghost predicate LawfulAt(x: Syntax, pat: string) {
    var n := x.length(pat);
    && 0 < n <= |pat| && !Plain(pat[n - 1])
    && !x.member(pat, '/')
    && forall i :: 0 <= i < |x.choices(pat)| ==> |x.choices(pat)[i]| < n
  }

  /** A directory may be meant by what is left of "dir/..." when the path is used up. */
  predicate MatchesNothing(pat: string) {
    pat == "/**" || pat == "/**/"
  }

  /** start says that the pattern is at the start of a path segment, where "**" is special. */
  ghost predicate Matches(x: Syntax, pat: string, start: bool, p: string)
    requires Lawful(x)
    decreases |pat|
  {
    if pat == "" then p == ""
    else if start && (pat == "**" || pat == "**/") then true
    else if start && HasPrefix(pat, "**/") then
      exists k :: 0 <= k <= |p| && (k == 0 || p[k - 1] == '/') && Matches(x, pat[3..], true, p[k..])
    else if pat[0] == '*' then
      exists k :: 0 <= k <= |p| && '/' !in p[..k] && Matches(x, pat[1..], false, p[k..])
    else if pat[0] == '?' then
      p != "" && p[0] != '/' && Matches(x, pat[1..], false, p[1..])
    else if pat[0] == '{' then
      assert LawfulAt(x, pat);
      exists i :: 0 <= i < |x.choices(pat)| && Matches(x, x.choices(pat)[i] + pat[x.length(pat)..], start, p)
    else if pat[0] == '[' then
      assert LawfulAt(x, pat);
      p != "" && x.member(pat, p[0]) && Matches(x, pat[x.length(pat)..], false, p[1..])
    else if pat[0] == '\\' then
      |pat| > 1 && p != "" && p[0] == pat[1] && Matches(x, pat[2..], pat[1] == '/', p[1..])
    else
      if p == "" then MatchesNothing(pat)
      else p[0] == pat[0] && Matches(x, pat[1..], pat[0] == '/', p[1..])
  }

  /******* The shapes of patterns recognised by the source's regular expressions *******/

  /** The class [\w./@-]. */
  predicate Plain(c: char) {
    'a' <= c <= 'z' || 'A' <= c <= 'Z' || '0' <= c <= '9' || c == '_' || c == '.' || c == '/' || c == '@' || c == '-'
  }

  predicate AllPlain(s: string) {
    forall i :: 0 <= i < |s| ==> Plain(s[i])
  }

  /** The longest run of plain characters at the beginning. */
  function PlainRun(s: string): (n: nat)
    ensures n <= |s| && AllPlain(s[..n]) && (n < |s| ==> !Plain(s[n]))
  {
    if s == "" || !Plain(s[0]) then 0 else 1 + PlainRun(s[1..])
  }

  /** The longest run of plain characters at the end. */
  function PlainTail(s: string): (n: nat)
    ensures n <= |s| && AllPlain(s[|s| - n..]) && (n < |s| ==> !Plain(s[|s| - n - 1]))
  {
    if s == "" || !Plain(s[|s| - 1]) then 0 else 1 + PlainTail(s[..|s| - 1])
  }

  function TrimSlashes(s: string): (r: string)
    ensures r <= s && (r != "" ==> r[|r| - 1] != '/')
  {
    if s == "" || s[|s| - 1] != '/' then s else TrimSlashes(s[..|s| - 1])
  }

  datatype PrePost = PrePost(pre: string, star: bool, ext: string)

  /** pre, "**" and a slash, maybe a star, and ext. */
  function PatternOf(g: PrePost): string {
    g.pre + ("**/" + ((if g.star then "*" else "") + g.ext))
  }

  predicate IsPlain(exp: string) {
    exp != "" && AllPlain(exp)
  }

  // dir, when the pattern is a plain dir followed by a slash and "**".
  function PrefixDirOf(exp: string): (r: Option<string>)
    ensures r.Some? ==> AllPlain(r.value) && exp == r.value + "/**"
  {
    if HasSuffix(exp, "/**") && AllPlain(exp[..|exp| - 3]) then Some(exp[..|exp| - 3]) else None
  }

  /** A pattern of that form; pre is empty or ends in a slash. */
  function PrePostOf(exp: string): (r: Option<PrePost>)
    ensures r.Some? ==>
      && AllPlain(r.value.pre) && (r.value.pre == "" || r.value.pre[|r.value.pre| - 1] == '/') && IsPlain(r.value.ext)
      && exp == PatternOf(r.value)
  {
    var n := PlainRun(exp);
    var pre, rest := exp[..n], exp[n..];
    if (pre != "" && pre[n - 1] != '/') || !HasPrefix(rest, "**/") then None
    else
      var tail := rest[3..];
      var star := tail != "" && tail[0] == '*';
      var ext := if star then tail[1..] else tail;
      assert tail == (if star then "*" else "") + ext;
      assert rest == "**/" + tail && exp == pre + rest;
      if IsPlain(ext) then Some(PrePost(pre, star, ext)) else None
  }

  /** The literal prefix, never ending in a slash. */
  function PreOf(exp: string): Option<string> {
    var pre := TrimSlashes(exp[..PlainRun(exp)]);
    if pre == "" || '\n' in exp then None else Some(pre)
  }

  /** The literal suffix. */
  function PostOf(exp: string): Option<string> {
    var n := |exp| - PlainTail(exp);
    if n == |exp| || '\n' in exp[..n] then None else Some(exp[n..])
  }

  /******* The matchers *******/

  predicate PrefixDirMatches(dir: string, p: string) {
    p == dir || (|p| > |dir| && p[|dir|] == '/' && HasPrefix(p, dir))
  }

  predicate PrePostMatches(g: PrePost, p: string) {
    |p| >= |g.pre| + |g.ext| && HasPrefix(p, g.pre)
    && HasSuffix(p, g.ext) && (g.star || p == g.ext || p[|p| - |g.ext| - 1] == '/')
  }

  /** parseGlobExpression: the first shape that fits decides. */
  ghost predicate Fast(x: Syntax, exp: string, p: string)
    requires Lawful(x)
  {
    if IsPlain(exp) then p == exp
    else if PrefixDirOf(exp).Some? then PrefixDirMatches(PrefixDirOf(exp).value, p)
    else if PrePostOf(exp).Some? then PrePostMatches(PrePostOf(exp).value, p)
    else if PreOf(exp).Some? then HasPrefix(p, PreOf(exp).value) && Matches(x, exp, true, p)
    else if PostOf(exp).Some? then HasSuffix(p, PostOf(exp).value) && Matches(x, exp, true, p)
    else Matches(x, exp, true, p)
  }

  /******* Plain text matches itself *******/

  /** The start flag after a piece of plain text. */
  predicate StartAfter(start: bool, lit: string) {
    if lit == "" then start else lit[|lit| - 1] == '/'
  }

  lemma PlainHeadMatchesSomething(lit: string, rest: string)
    requires lit != "" && AllPlain(lit) && (lit[|lit| - 1] != '/' || (rest != "**" && rest != "**/"))
    ensures !MatchesNothing(lit + rest)
  {
    assert |lit| >= 2 ==> Plain((lit + rest)[1]);
    assert |lit| == 1 ==> rest == (lit + rest)[1..];
  }

  lemma PlainCharacterTakes(x: Syntax, pat: string, start: bool, p: string)
    requires Lawful(x) && pat != "" && Plain(pat[0])
    ensures Matches(x, pat, start, p)
      <==> if p == "" then MatchesNothing(pat) else p[0] == pat[0] && Matches(x, pat[1..], pat[0] == '/', p[1..])
  {
  }

  /** Taking one character off a text and a pattern that both begin with it. */
  lemma OneCharacterLess(lit: string, rest: string, p: string)
    requires lit != ""
    ensures (lit + rest)[0] == lit[0] && (lit + rest)[1..] == lit[1..] + rest
    ensures p != "" && p[0] == lit[0] ==> (HasPrefix(p, lit) <==> HasPrefix(p[1..], lit[1..]))
    ensures HasPrefix(p, lit) ==> p != "" && p[0] == lit[0] && p[1..][|lit| - 1..] == p[|lit|..]
  {
    if p != "" && p[0] == lit[0] {
      assert lit == [lit[0]] + lit[1..] && p == [p[0]] + p[1..];
    }
  }

  lemma {:induction false} PlainTextMatches(x: Syntax, lit: string, rest: string, start: bool, p: string)
    requires Lawful(x) && AllPlain(lit)
    requires lit == "" || lit[|lit| - 1] != '/' || (rest != "**" && rest != "**/")
    ensures Matches(x, lit + rest, start, p)
      <==> HasPrefix(p, lit) && Matches(x, rest, StartAfter(start, lit), p[|lit|..])
  {
    if lit == "" {
      assert lit + rest == rest && p[0..] == p;
    } else {
      OneCharacterLess(lit, rest, p);
      PlainHeadMatchesSomething(lit, rest);
      PlainCharacterTakes(x, lit + rest, start, p);
      if p != "" && p[0] == lit[0] {
        PlainTextMatches(x, lit[1..], rest, lit[0] == '/', p[1..]);
      }
    }
  }

  lemma PlainMatchesItself(x: Syntax, lit: string, start: bool, p: string)
    requires Lawful(x) && AllPlain(lit)
    ensures Matches(x, lit, start, p) <==> p == lit
  {
    assert lit + "" == lit;
    PlainTextMatches(x, lit, "", start, p);
    if HasPrefix(p, lit) {
      assert p == lit + p[|lit|..];
    }
  }

  /******* Everything in a directory *******/

  lemma PrefixDirIsExact(x: Syntax, dir: string, p: string)
    requires Lawful(x) && AllPlain(dir)
    ensures Matches(x, dir + "/**", true, p) <==> PrefixDirMatches(dir, p)
  {
    PlainTextMatches(x, dir, "/**", true, p);
    if HasPrefix(p, dir) {
      var rest := p[|dir|..];
      assert p == dir + rest;
      assert "/**"[1..] == "**";
      assert Matches(x, "/**", StartAfter(true, dir), rest) <==> rest == "" || rest[0] == '/';
    }
  }

  /******* A plain prefix, any directories, a plain suffix *******/

  lemma StarTakes(x: Syntax, rest: string, start: bool, p: string)
    requires Lawful(x) && rest != "" && Plain(rest[0])
    ensures Matches(x, "*" + rest, start, p) <==>
      exists k :: 0 <= k <= |p| && '/' !in p[..k] && Matches(x, rest, false, p[k..])
  {
    var pat := "*" + rest;
    assert pat[1] == rest[0] && pat[1..] == rest;
  }

  lemma ExtAfterStar(x: Syntax, ext: string, p: string)
    requires Lawful(x) && IsPlain(ext)
    ensures Matches(x, "*" + ext, true, p) <==> HasSuffix(p, ext) && '/' !in p[..|p| - |ext|]
  {
    StarTakes(x, ext, true, p);
    forall k | 0 <= k <= |p| ensures Matches(x, ext, false, p[k..]) <==> p[k..] == ext {
      PlainMatchesItself(x, ext, false, p[k..]);
    }
    if HasSuffix(p, ext) {
      assert Matches(x, ext, false, p[|p| - |ext|..]);
    }
  }

  /** p is some directories, or nothing, followed by a text that q accepts. */
  ghost predicate AfterDirs(p: string, q: string -> bool) {
    exists k :: 0 <= k <= |p| && (k == 0 || p[k - 1] == '/') && q(p[k..])
  }

  lemma DirsTake(x: Syntax, rest: string, p: string, q: string -> bool)
    requires Lawful(x) && rest != "" && forall s :: Matches(x, rest, true, s) <==> q(s)
    ensures Matches(x, "**/" + rest, true, p) <==> AfterDirs(p, q)
  {
    var pat := "**/" + rest;
    assert HasPrefix(pat, "**/") && pat[3..] == rest;
  }

  lemma TailAfterDirs(p: string, ext: string)
    requires ext != ""
    ensures AfterDirs(p, (s: string) => s == ext) <==> HasSuffix(p, ext) && (p == ext || p[|p| - |ext| - 1] == '/')
  {
    if HasSuffix(p, ext) {
      assert p[|p| - |ext|..] == ext;
    }
  }

  lemma ExtAfterDirs(x: Syntax, ext: string, p: string)
    requires Lawful(x) && IsPlain(ext)
    ensures Matches(x, "**/" + ext, true, p) <==> HasSuffix(p, ext) && (p == ext || p[|p| - |ext| - 1] == '/')
  {
    forall s ensures Matches(x, ext, true, s) <==> s == ext {
      PlainMatchesItself(x, ext, true, s);
    }
    DirsTake(x, ext, p, (s: string) => s == ext);
    TailAfterDirs(p, ext);
  }

  predicate EndsFlat(s: string, ext: string) {
    HasSuffix(s, ext) && '/' !in s[..|s| - |ext|]
  }

  lemma FlatTailAfterDirs(p: string, ext: string)
    ensures AfterDirs(p, (s: string) => EndsFlat(s, ext)) <==> HasSuffix(p, ext)
  {
    if HasSuffix(p, ext) {
      var k := LastSlash(p[..|p| - |ext|]);
      assert p[k..][..|p| - k - |ext|] == p[..|p| - |ext|][k..];
      assert EndsFlat(p[k..], ext);
    }
  }

  lemma ExtAfterDirsAndStar(x: Syntax, ext: string, p: string)
    requires Lawful(x) && IsPlain(ext)
    ensures Matches(x, "**/" + ("*" + ext), true, p) <==> HasSuffix(p, ext)
  {
    forall s ensures Matches(x, "*" + ext, true, s) <==> EndsFlat(s, ext) {
      ExtAfterStar(x, ext, s);
    }
    DirsTake(x, "*" + ext, p, (s: string) => EndsFlat(s, ext));
    FlatTailAfterDirs(p, ext);
  }

  /** What follows the prefix of such a pattern. */
  function TailOf(g: PrePost): string {
    "**/" + ((if g.star then "*" else "") + g.ext)
  }

  predicate TailFits(g: PrePost, rest: string) {
    HasSuffix(rest, g.ext) && (g.star || rest == g.ext || rest[|rest| - |g.ext| - 1] == '/')
  }

  /** The part of a path after the prefix, against the part of the pattern after it. */
  lemma TailIsExact(x: Syntax, g: PrePost, rest: string)
    requires Lawful(x) && IsPlain(g.ext)
    ensures Matches(x, TailOf(g), true, rest) <==> TailFits(g, rest)
  {
    if g.star {
      ExtAfterDirsAndStar(x, g.ext, rest);
    } else {
      assert "" + g.ext == g.ext;
      ExtAfterDirs(x, g.ext, rest);
    }
  }

  lemma PrePostOfRest(g: PrePost, p: string)
    requires (g.pre == "" || g.pre[|g.pre| - 1] == '/') && g.ext != ""
    ensures PrePostMatches(g, p) <==> HasPrefix(p, g.pre) && TailFits(g, p[|g.pre|..])
  {
    if HasPrefix(p, g.pre) {
      var rest := p[|g.pre|..];
      assert p == g.pre + rest;
      if |rest| >= |g.ext| {
        assert p[|p| - |g.ext|..] == rest[|rest| - |g.ext|..];
        if |rest| == |g.ext| {
          assert rest[0..] == rest;
        }
      }
    }
  }

  lemma PrefixIsTaken(x: Syntax, g: PrePost, p: string)
    requires Lawful(x) && AllPlain(g.pre) && (g.pre == "" || g.pre[|g.pre| - 1] == '/') && g.ext != ""
    ensures Matches(x, PatternOf(g), true, p) <==> HasPrefix(p, g.pre) && Matches(x, TailOf(g), true, p[|g.pre|..])
  {
    assert |TailOf(g)| > 3 && PatternOf(g) == g.pre + TailOf(g);
    PlainTextMatches(x, g.pre, TailOf(g), true, p);
  }

  lemma PrePostIsExact(x: Syntax, g: PrePost, p: string)
    requires Lawful(x) && AllPlain(g.pre) && (g.pre == "" || g.pre[|g.pre| - 1] == '/') && IsPlain(g.ext)
    ensures Matches(x, PatternOf(g), true, p) <==> PrePostMatches(g, p)
  {
    PrefixIsTaken(x, g, p);
    PrePostOfRest(g, p);
    if HasPrefix(p, g.pre) {
      TailIsExact(x, g, p[|g.pre|..]);
    }
  }

  /** Where the last directory of a text ends. */
  function LastSlash(s: string): (k: nat)
    ensures k <= |s| && '/' !in s[k..] && (k == 0 || s[k - 1] == '/')
  {
    if s == "" || s[|s| - 1] == '/' then |s| else LastSlash(s[..|s| - 1])
  }

  /******* The checks made before the general matcher *******/

  /** The prefix check never rejects a path that the pattern matches. */
  lemma PrefixCheckIsSound(x: Syntax, exp: string, p: string)
    requires Lawful(x) && PreOf(exp).Some? && Matches(x, exp, true, p)
    ensures HasPrefix(p, PreOf(exp).value)
  {
    var pre := PreOf(exp).value;
    assert exp == pre + exp[|pre|..];
    PlainTextMatches(x, pre, exp[|pre|..], true, p);
  }

  /** Bounded "**", and nothing else, may stand before the text, once alternatives are chosen. */
  ghost predicate AllDirs(x: Syntax, pat: string, tail: string)
    requires Lawful(x)
    decreases |pat|
  {
    if pat != "" && pat[0] == '{' then
      assert LawfulAt(x, pat);
      exists i :: 0 <= i < |x.choices(pat)| && AllDirs(x, x.choices(pat)[i] + pat[x.length(pat)..], tail)
    else HasPrefix(pat, "**/") && (pat[3..] == tail || AllDirs(x, pat[3..], tail))
  }

  /** The pattern may come to end in "**" bounded by separators, and a separator. */
  ghost predicate EndsInDirs(x: Syntax, pat: string, start: bool)
    requires Lawful(x)
    decreases |pat|
  {
    if pat == "" then false
    else if start && pat == "**/" then true
    else if start && HasPrefix(pat, "**/") then EndsInDirs(x, pat[3..], true)
    else if pat[0] == '{' then
      assert LawfulAt(x, pat);
      exists i :: 0 <= i < |x.choices(pat)| && EndsInDirs(x, x.choices(pat)[i] + pat[x.length(pat)..], start)
    else if pat[0] == '[' then
      assert LawfulAt(x, pat);
      EndsInDirs(x, pat[x.length(pat)..], false)
    else if pat[0] == '\\' then |pat| > 1 && EndsInDirs(x, pat[2..], pat[1] == '/')
    else EndsInDirs(x, pat[1..], pat[0] == '/')
  }

  /** What the first step of a match does with the pattern. */
  datatype Head = Dirs | Text | Wild

  /**
   One step of a match, except for brace groups: directories, a character matched by itself, or
   something that ends in a character that is not plain.
   */
  ghost predicate Step(x: Syntax, pat: string, start: bool, p: string, head: Head, n: nat, k: nat, next: bool)
    requires Lawful(x)
  {
    StepShape(pat, start, p, head, n, k, next) && Matches(x, pat[n..], next, p[k..])
  }

  predicate StepShape(pat: string, start: bool, p: string, head: Head, n: nat, k: nat, next: bool) {
    && 0 < n <= |pat| && k <= |p|
    && match head
       case Dirs => start && HasPrefix(pat, "**/") && n == 3 < |pat| && next && (k == 0 || p[k - 1] == '/')
       case Text =>
         && k == 1 && p[0] == pat[n - 1] && next == (p[0] == '/')
         && ((n == 1 && pat[0] != '*') || (n == 2 && pat[0] == '\\'))
       case Wild => !Plain(pat[n - 1]) && !next
  }

  lemma MatchSteps(x: Syntax, pat: string, start: bool, p: string) returns (head: Head, n: nat, k: nat, next: bool)
    requires Lawful(x) && Matches(x, pat, start, p) && pat != "" && pat[0] != '{'
    requires !(start && (pat == "**" || pat == "**/")) && !(p == "" && MatchesNothing(pat))
    ensures Step(x, pat, start, p, head, n, k, next)
    ensures EndsInDirs(x, pat[n..], next) ==> EndsInDirs(x, pat, start)
  {
    if start && HasPrefix(pat, "**/") {
      k :| 0 <= k <= |p| && (k == 0 || p[k - 1] == '/') && Matches(x, pat[3..], true, p[k..]);
      head, n, next := Dirs, 3, true;
    } else if pat[0] == '*' {
      k :| 0 <= k <= |p| && '/' !in p[..k] && Matches(x, pat[1..], false, p[k..]);
      head, n, next := Wild, 1, false;
    } else if pat[0] == '?' {
      head, n, k, next := Wild, 1, 1, false;
    } else if pat[0] == '[' {
      assert LawfulAt(x, pat);
      head, n, k, next := Wild, x.length(pat), 1, false;
    } else {
      n := if pat[0] == '\\' then 2 else 1;
      head, k, next := Text, 1, p[0] == '/';
    }
  }

  /** The pattern is plain from a place on. */
  predicate PlainFrom(pat: string, lead: nat) {
    lead <= |pat| && forall i :: lead <= i < |pat| ==> Plain(pat[i])
  }

  /** A step ends within the plain end of the pattern only at its separator, after "**", or its first character, escaped. */
  lemma StepWithinPlainEnd(pat: string, start: bool, p: string, head: Head, n: nat, k: nat, next: bool, lead: nat)
    requires StepShape(pat, start, p, head, n, k, next) && PlainFrom(pat, lead) && 0 < lead < n
    ensures (head.Dirs? && lead == 2 && pat[2] == '/' && n == 3) || (head.Text? && lead == 1 && n == 2)
  {
    assert Plain(pat[n - 1]);
    if head.Dirs? {
      assert pat[1] == pat[..3][1] == '*' && pat[2] == pat[..3][2] == '/';
    }
  }

  lemma TextEndsMatch(x: Syntax, pat: string, p: string, next: bool)
    requires Lawful(x) && |pat| >= 2 && PlainFrom(pat, 1) && p != "" && p[0] == pat[1] && Matches(x, pat[2..], next, p[1..])
    ensures p == pat[1..]
  {
    PlainMatchesItself(x, pat[2..], next, p[1..]);
    assert p == [p[0]] + p[1..];
  }

  /** A plain end that does not begin with a separator ends every matched path. */
  lemma {:induction false} SuffixIsKept(x: Syntax, pat: string, start: bool, p: string, lead: nat)
    requires Lawful(x) && Matches(x, pat, start, p) && lead < |pat| && PlainFrom(pat, lead) && pat[lead] != '/'
    ensures HasSuffix(p, pat[lead..])
    decreases |pat|
  {
    if lead == 0 {
      PlainMatchesItself(x, pat, start, p);
    } else if pat[0] == '{' {
      SuffixAfterBrace(x, pat, start, p, lead);
    } else {
      assert Plain(pat[|pat| - 1]);
      var head, n, k, next := MatchSteps(x, pat, start, p);
      if n <= lead {
        assert pat[n..][lead - n..] == pat[lead..];
        SuffixIsKept(x, pat[n..], next, p[k..], lead - n);
        SuffixOfRest(p, k, pat[lead..]);
      } else {
        SuffixWithinStep(x, pat, start, p, head, n, k, next, lead);
      }
    }
  }

  lemma SuffixOfRest(p: string, k: nat, suf: string)
    requires k <= |p| && HasSuffix(p[k..], suf)
    ensures HasSuffix(p, suf)
  {
  }

  lemma SuffixWithinStep(x: Syntax, pat: string, start: bool, p: string, head: Head, n: nat, k: nat, next: bool, lead: nat)
    requires Lawful(x) && Step(x, pat, start, p, head, n, k, next)
    requires 0 < lead < n && lead < |pat| && PlainFrom(pat, lead) && (pat[lead] != '/' || n == |pat|)
    ensures HasSuffix(p, pat[lead..])
  {
    StepWithinPlainEnd(pat, start, p, head, n, k, next, lead);
    TextEndsMatch(x, pat, p, next);
  }

  lemma {:induction false} SuffixAfterBrace(x: Syntax, pat: string, start: bool, p: string, lead: nat)
    requires Lawful(x) && Matches(x, pat, start, p) && lead < |pat| && PlainFrom(pat, lead) && pat[lead] != '/'
    requires pat[0] == '{'
    ensures HasSuffix(p, pat[lead..])
    decreases |pat|, 0
  {
    var choice, at := ChosenAlternative(x, pat, start, p, lead);
    SuffixIsKept(x, choice + pat[x.length(pat)..], start, p, at);
  }

  /** A brace group matches by one of its alternatives, and the plain end of the pattern is still there. */
  lemma ChosenAlternative(x: Syntax, pat: string, start: bool, p: string, lead: nat) returns (choice: string, at: nat)
    requires Lawful(x) && Matches(x, pat, start, p) && lead < |pat| && PlainFrom(pat, lead) && pat[0] == '{'
    ensures choice in x.choices(pat) && 0 < x.length(pat) <= |pat|
    ensures var whole := choice + pat[x.length(pat)..];
      && |whole| < |pat| && Matches(x, whole, start, p)
      && |whole| - at == |pat| - lead && PlainFrom(whole, at) && whole[at..] == pat[lead..] && whole[at] == pat[lead]
      && (at < |whole| - 1 ==> whole[at + 1..] == pat[lead + 1..])
  {
    assert LawfulAt(x, pat);
    var n := x.length(pat);
    var i :| 0 <= i < |x.choices(pat)| && Matches(x, x.choices(pat)[i] + pat[n..], start, p);
    choice := x.choices(pat)[i];
    var whole := choice + pat[n..];
    at := |choice| + lead - n;
    assert whole[at..] == pat[lead..];
    assert forall j :: at <= j < |whole| ==> whole[j] == pat[j - |choice| + n];
  }

  /** A plain end beginning with a separator ends every match too, but for the rest of it after mere directories. */
  lemma {:induction false} SlashSuffixIsKept(x: Syntax, pat: string, start: bool, p: string, lead: nat)
    requires Lawful(x) && Matches(x, pat, start, p) && lead < |pat| - 1 && PlainFrom(pat, lead) && pat[lead] == '/'
    ensures HasSuffix(p, pat[lead..]) || (start && AllDirs(x, pat, pat[lead + 1..]) && p == pat[lead + 1..])
    decreases |pat|
  {
    var tail := pat[lead + 1..];
    assert pat[lead..] == "/" + tail;
    if lead == 0 {
      PlainMatchesItself(x, pat, start, p);
    } else if pat[0] == '{' {
      SlashSuffixAfterBrace(x, pat, start, p, lead);
    } else {
      assert Plain(pat[|pat| - 1]) && Plain(pat[|pat| - 2]);
      var head, n, k, next := MatchSteps(x, pat, start, p);
      if n <= lead {
        assert pat[n..][lead - n..] == pat[lead..] && pat[n..][lead - n + 1..] == tail;
        SlashSuffixIsKept(x, pat[n..], next, p[k..], lead - n);
        StepBeforeTail(x, pat, start, p, head, n, k, next, tail);
      } else {
        SlashWithinStep(x, pat, start, p, head, n, k, next, lead);
      }
    }
  }

  lemma SlashWithinStep(x: Syntax, pat: string, start: bool, p: string, head: Head, n: nat, k: nat, next: bool, lead: nat)
    requires Lawful(x) && Step(x, pat, start, p, head, n, k, next)
    requires 0 < lead < n && lead < |pat| - 1 && PlainFrom(pat, lead) && pat[lead] == '/'
    ensures HasSuffix(p, pat[lead..]) || (start && AllDirs(x, pat, pat[lead + 1..]) && p == pat[lead + 1..])
  {
    var tail := pat[lead + 1..];
    assert pat[lead..] == "/" + tail;
    StepWithinPlainEnd(pat, start, p, head, n, k, next, lead);
    if head.Dirs? {
      PlainMatchesItself(x, tail, next, p[k..]);
      TextBeforeTail(p, k, tail);
    } else {
      TextEndsMatch(x, pat, p, next);
    }
  }

  lemma {:induction false} SlashSuffixAfterBrace(x: Syntax, pat: string, start: bool, p: string, lead: nat)
    requires Lawful(x) && Matches(x, pat, start, p) && lead < |pat| - 1 && PlainFrom(pat, lead) && pat[lead] == '/'
    requires pat[0] == '{'
    ensures HasSuffix(p, pat[lead..]) || (start && AllDirs(x, pat, pat[lead + 1..]) && p == pat[lead + 1..])
    decreases |pat|, 0
  {
    var choice, at := ChosenAlternative(x, pat, start, p, lead);
    SlashSuffixIsKept(x, choice + pat[x.length(pat)..], start, p, at);
  }

  /** What the rest of a match says about its end holds of the whole. */
  lemma StepBeforeTail(x: Syntax, pat: string, start: bool, p: string, head: Head, n: nat, k: nat, next: bool, tail: string)
    requires Lawful(x) && StepShape(pat, start, p, head, n, k, next)
    requires HasSuffix(p[k..], "/" + tail) || (next && AllDirs(x, pat[n..], tail) && p[k..] == tail)
    ensures HasSuffix(p, "/" + tail) || (start && AllDirs(x, pat, tail) && p == tail)
  {
    TextBeforeTail(p, k, tail);
    assert k == 0 ==> p[k..] == p;
    assert head.Dirs? ==> pat[0] == pat[..3][0] == '*';
  }

  lemma TextBeforeTail(p: string, k: nat, tail: string)
    requires k <= |p|
    ensures HasSuffix(p[k..], "/" + tail) ==> HasSuffix(p, "/" + tail)
    ensures k > 0 && p[k - 1] == '/' && p[k..] == tail ==> HasSuffix(p, "/" + tail)
  {
  }

  /** A separator at the end of the pattern ends every match, unless it belongs to a "**". */
  lemma {:induction false} FinalSlashIsKept(x: Syntax, pat: string, start: bool, p: string)
    requires Lawful(x) && Matches(x, pat, start, p) && pat != "" && pat[|pat| - 1] == '/' && !EndsInDirs(x, pat, start)
    ensures p != "" && p[|p| - 1] == '/'
    decreases |pat|
  {
    if |pat| == 1 {
      assert pat == "/";
      PlainMatchesItself(x, pat, start, p);
    } else if pat[0] == '{' {
      FinalSlashAfterBrace(x, pat, start, p);
    } else {
      FinalDirsAreSeen(x, start);
      var head, n, k, next := MatchSteps(x, pat, start, p);
      if n <= |pat| - 1 {
        assert pat[n..][|pat| - n - 1] == '/';
        FinalSlashIsKept(x, pat[n..], next, p[k..]);
        assert p[k..][|p| - k - 1] == p[|p| - 1];
      } else {
        SuffixWithinStep(x, pat, start, p, head, n, k, next, |pat| - 1);
      }
    }
  }

  lemma {:induction false} FinalSlashAfterBrace(x: Syntax, pat: string, start: bool, p: string)
    requires Lawful(x) && Matches(x, pat, start, p) && pat != "" && pat[|pat| - 1] == '/' && !EndsInDirs(x, pat, start)
    requires pat[0] == '{'
    ensures p != "" && p[|p| - 1] == '/'
    decreases |pat|, 0
  {
    var choice, at := ChosenAlternative(x, pat, start, p, |pat| - 1);
    FinalSlashIsKept(x, choice + pat[x.length(pat)..], start, p);
  }

  lemma FinalDirsAreSeen(x: Syntax, start: bool)
    requires Lawful(x)
    ensures EndsInDirs(x, "**/", true) && EndsInDirs(x, "/**/", start)
  {
    assert "/**/"[1..] == "**/";
  }

  /******* Paths the suffix check does reject *******/

  lemma {:induction false} AllDirsMatchText(x: Syntax, pat: string, tail: string)
    requires Lawful(x) && AllDirs(x, pat, tail) && IsPlain(tail)
    ensures Matches(x, pat, true, tail)
    decreases |pat|
  {
    assert tail[0..] == tail;
    if pat[0] == '{' {
      assert LawfulAt(x, pat);
      var i :| 0 <= i < |x.choices(pat)| && AllDirs(x, x.choices(pat)[i] + pat[x.length(pat)..], tail);
      AllDirsMatchText(x, x.choices(pat)[i] + pat[x.length(pat)..], tail);
    } else {
      if pat[3..] == tail {
        PlainMatchesItself(x, tail, true, tail);
      } else {
        AllDirsMatchText(x, pat[3..], tail);
      }
      DirsMatchNothing(x, pat, tail);
    }
  }

  /** Every class accepts some character. */
  ghost predicate NoEmptyClass(x: Syntax) {
    forall pat: string :: pat != "" && pat[0] == '[' ==> exists c :: x.member(pat, c)
  }

  lemma DirsMatchNothing(x: Syntax, pat: string, p: string)
    requires Lawful(x) && HasPrefix(pat, "**/") && |pat| > 3 && Matches(x, pat[3..], true, p)
    ensures Matches(x, pat, true, p)
  {
    assert p[0..] == p;
  }

  lemma StarMatchesNothing(x: Syntax, pat: string, start: bool, p: string)
    requires Lawful(x) && pat != "" && pat[0] == '*' && !(start && (pat == "**" || HasPrefix(pat, "**/")))
    requires Matches(x, pat[1..], false, p)
    ensures Matches(x, pat, start, p)
  {
    assert p[0..] == p && p[..0] == "";
  }

  lemma CharacterMatches(x: Syntax, pat: string, start: bool, c: char, p: string)
    requires Lawful(x) && pat != "" && (if pat[0] == '?' then c != '/' else pat[0] != '*' && c == pat[0])
    requires pat[0] != '\\' && pat[0] != '[' && pat[0] != '{' && Matches(x, pat[1..], pat[0] == '/', p)
    ensures Matches(x, pat, start, [c] + p)
  {
    assert ([c] + p)[1..] == p;
  }

  lemma ClassMatches(x: Syntax, pat: string, start: bool, c: char, p: string)
    requires Lawful(x) && pat != "" && pat[0] == '[' && x.member(pat, c) && LawfulAt(x, pat)
    requires Matches(x, pat[x.length(pat)..], false, p)
    ensures Matches(x, pat, start, [c] + p)
  {
    assert ([c] + p)[1..] == p;
  }

  lemma EscapeMatches(x: Syntax, pat: string, start: bool, p: string)
    requires Lawful(x) && |pat| > 1 && pat[0] == '\\' && Matches(x, pat[2..], pat[1] == '/', p)
    ensures Matches(x, pat, start, [pat[1]] + p)
  {
    assert ([pat[1]] + p)[1..] == p;
  }

  predicate EndsInB(p: string) {
    p != "" && p[|p| - 1] == 'b'
  }

  lemma StarsAlone(x: Syntax)
    requires Lawful(x)
    ensures !EndsInDirs(x, "**", true)
  {
    assert "**"[1..] == "*" && "*"[1..] == "";
    assert !EndsInDirs(x, "*", false);
  }

  /** A pattern that may come to end in directories matches a file below them. */
  lemma {:induction false} DirsMatchFile(x: Syntax, pat: string, start: bool) returns (p: string)
    requires Lawful(x) && NoEmptyClass(x) && EndsInDirs(x, pat, start)
    ensures Matches(x, pat, start, p) && EndsInB(p)
    decreases |pat|
  {
    if start && pat == "**/" {
      p := "b";
    } else if start && HasPrefix(pat, "**/") {
      p := DirsMatchFile(x, pat[3..], true);
      DirsMatchNothing(x, pat, p);
    } else if pat[0] == '{' {
      assert LawfulAt(x, pat);
      var i :| 0 <= i < |x.choices(pat)| && EndsInDirs(x, x.choices(pat)[i] + pat[x.length(pat)..], start);
      p := DirsMatchFile(x, x.choices(pat)[i] + pat[x.length(pat)..], start);
    } else if pat[0] == '[' {
      p := ClassMatchesFile(x, pat, start);
    } else if pat[0] == '\\' {
      var rest := DirsMatchFile(x, pat[2..], pat[1] == '/');
      EscapeMatches(x, pat, start, rest);
      p := [pat[1]] + rest;
    } else {
      StarsAlone(x);
      var rest := DirsMatchFile(x, pat[1..], pat[0] == '/');
      if pat[0] == '*' {
        StarMatchesNothing(x, pat, start, rest);
        p := rest;
      } else {
        var c := if pat[0] == '?' then 'a' else pat[0];
        CharacterMatches(x, pat, start, c, rest);
        p := [c] + rest;
      }
    }
  }

  lemma {:induction false} ClassMatchesFile(x: Syntax, pat: string, start: bool) returns (p: string)
    requires Lawful(x) && NoEmptyClass(x) && pat != "" && pat[0] == '[' && EndsInDirs(x, pat, start)
    ensures Matches(x, pat, start, p) && EndsInB(p)
    decreases |pat|, 0
  {
    assert LawfulAt(x, pat);
    var c :| x.member(pat, c);
    var rest := DirsMatchFile(x, pat[x.length(pat)..], false);
    ClassMatches(x, pat, start, c, rest);
    p := [c] + rest;
  }

  /******* The fast matcher against the reference *******/

  /** The pattern is checked by its suffix. */
  predicate UsesSuffix(exp: string) {
    !IsPlain(exp) && PrefixDirOf(exp).None? && PrePostOf(exp).None? && PreOf(exp).None? && PostOf(exp).Some?
  }

  /**
   The suffix begins with a separator that belongs to a "**" able to match nothing: it is all that
   follows a "**", or the text after it follows nothing but "**", for some choice of alternatives.
   */
  ghost predicate SuffixSkips(x: Syntax, exp: string)
    requires Lawful(x)
  {
    UsesSuffix(exp) && EndSkips(x, exp, PostOf(exp).value)
  }

  ghost predicate EndSkips(x: Syntax, exp: string, suf: string)
    requires Lawful(x)
  {
    suf != "" && suf[0] == '/' && if suf == "/" then EndsInDirs(x, exp, true) else AllDirs(x, exp, suf[1..])
  }

  /** The plain end of a pattern ends every match, unless it begins with the separator of a "**" able to match nothing. */
  lemma PlainEndIsKept(x: Syntax, exp: string, p: string, lead: nat)
    requires Lawful(x) && Matches(x, exp, true, p) && lead < |exp| && PlainFrom(exp, lead)
    requires !EndSkips(x, exp, exp[lead..])
    ensures HasSuffix(p, exp[lead..])
  {
    if exp[lead] != '/' {
      SuffixIsKept(x, exp, true, p, lead);
    } else if lead == |exp| - 1 {
      assert exp[lead..] == "/";
      FinalSlashIsKept(x, exp, true, p);
      assert p[|p| - 1..] == "/";
    } else {
      assert exp[lead..][1..] == exp[lead + 1..] && |exp[lead..]| > 1;
      SlashSuffixIsKept(x, exp, true, p, lead);
    }
  }

  /** The suffix check never rejects a path that the pattern matches, but for those patterns. */
  lemma SuffixCheckIsSound(x: Syntax, exp: string, p: string)
    requires Lawful(x) && UsesSuffix(exp) && !SuffixSkips(x, exp) && Matches(x, exp, true, p)
    ensures HasSuffix(p, PostOf(exp).value)
  {
    var n := PlainTail(exp);
    var lead := |exp| - n;
    assert forall i :: lead <= i < |exp| ==> exp[i] == exp[lead..][i - lead];
    PlainEndIsKept(x, exp, p, lead);
  }

  /** The fast matcher accepts exactly what the reference does, unless the suffix check skips a "**". */
  lemma FastIsExact(x: Syntax, exp: string, p: string)
    requires Lawful(x) && !SuffixSkips(x, exp)
    ensures Fast(x, exp, p) <==> Matches(x, exp, true, p)
  {
    if IsPlain(exp) {
      PlainMatchesItself(x, exp, true, p);
    } else if PrefixDirOf(exp).Some? {
      PrefixDirIsExact(x, PrefixDirOf(exp).value, p);
    } else if PrePostOf(exp).Some? {
      PrePostIsExact(x, PrePostOf(exp).value, p);
    } else if Matches(x, exp, true, p) {
      if PreOf(exp).Some? {
        PrefixCheckIsSound(x, exp, p);
      } else if PostOf(exp).Some? {
        SuffixCheckIsSound(x, exp, p);
      }
    }
  }

  /** A path that the pattern matches and the suffix check rejects: the text after the directories, or a file in them. */
  lemma SkippedPath(x: Syntax, exp: string) returns (p: string)
    requires Lawful(x) && NoEmptyClass(x) && SuffixSkips(x, exp)
    ensures Matches(x, exp, true, p) && !Fast(x, exp, p)
    ensures if PostOf(exp).value == "/" then EndsInB(p) else p == PostOf(exp).value[1..]
  {
    var suf := PostOf(exp).value;
    if suf == "/" {
      p := DirsMatchFile(x, exp, true);
    } else {
      p := suf[1..];
      AllDirsMatchText(x, exp, p);
    }
    SuffixRejects(x, exp, p);
  }

  lemma SuffixRejects(x: Syntax, exp: string, p: string)
    requires Lawful(x) && UsesSuffix(exp) && !HasSuffix(p, PostOf(exp).value)
    ensures !Fast(x, exp, p)
  {
  }

  /** This is the exact condition. */
  lemma FastIsExactUnlessSkipping(x: Syntax, exp: string)
    requires Lawful(x) && NoEmptyClass(x)
    ensures (forall p :: Fast(x, exp, p) <==> Matches(x, exp, true, p)) <==> !SuffixSkips(x, exp)
  {
    if SuffixSkips(x, exp) {
      var p := SkippedPath(x, exp);
      assert Matches(x, exp, true, p) && !Fast(x, exp, p);
    } else {
      forall p ensures Fast(x, exp, p) <==> Matches(x, exp, true, p) {
        FastIsExact(x, exp, p);
      }
    }
  }

  /******* Examples *******/

  lemma {:induction false} PlainTailIs(s: string, n: nat)
    requires n < |s| && PlainFrom(s, |s| - n) && !Plain(s[|s| - n - 1])
    ensures PlainTail(s) == n
  {
    if n > 0 {
      PlainTailIs(s[..|s| - 1], n - 1);
    }
  }

  /** A pattern that begins with "*" or a brace and ends in a slash, maybe with text, is checked by that suffix. */
  lemma CheckedBySuffix(exp: string, n: nat)
    requires 0 < n < |exp| && PlainFrom(exp, |exp| - n) && !Plain(exp[|exp| - n - 1]) && '\n' !in exp
    requires !Plain(exp[0]) && (!HasPrefix(exp, "**/") || (|exp| > 4 && exp[3..5] == "**"))
    ensures UsesSuffix(exp) && PostOf(exp) == Some(exp[|exp| - n..])
  {
    PlainTailIs(exp, n);
    assert PlainRun(exp) == 0 && exp[..0] == "" && exp[0..] == exp;
    assert Plain(exp[|exp| - 1]);
    assert !Plain("/**"[2]);
    if HasPrefix(exp, "**/") {
      assert exp[3] == exp[3..5][0] && exp[4] == exp[3..5][1];
      assert exp[3..][0] == exp[3] && exp[3..][1..][0] == exp[4];
    }
  }

  lemma DoubleDirsMatch(x: Syntax, exp: string)
    requires Lawful(x) && exp == "**/**/foo"
    ensures Matches(x, exp, true, "foo")
  {
    assert exp[3..] == "**/foo" && exp[3..][3..] == "foo";
    assert AllDirs(x, exp[3..], "foo");
    AllDirsMatchText(x, exp, "foo");
  }

  lemma DoubleDirsAreChecked(exp: string)
    requires exp == "**/**/foo"
    ensures UsesSuffix(exp) && PostOf(exp) == Some("/foo")
  {
    assert exp[5..] == "/foo";
    CheckedBySuffix(exp, 4);
  }

  /** The path "foo" is rejected although the pattern matches it. */
  lemma DoubleDirsReject(x: Syntax, exp: string)
    requires Lawful(x) && exp == "**/**/foo"
    ensures Matches(x, exp, true, "foo") && !Fast(x, exp, "foo")
  {
    DoubleDirsMatch(x, exp);
    DoubleDirsAreChecked(exp);
    SuffixRejects(x, exp, "foo");
  }

  lemma FinalDirsMatch(x: Syntax, exp: string)
    requires Lawful(x) && exp == "*/**/"
    ensures Matches(x, exp, true, "a")
  {
    assert exp[1..] == "/**/" && MatchesNothing(exp[1..]) && exp[..3][1] == '/' && "**/"[1] == '*';
    assert "a"[1..] == "" && "a"[..1] == "a";
    assert Matches(x, exp[1..], false, "a"[1..]);
  }

  /** So is "a", and so is "foo" when the "**" is an alternative. */
  lemma FinalDirsReject(x: Syntax, exp: string)
    requires Lawful(x) && exp == "*/**/"
    ensures Matches(x, exp, true, "a") && !Fast(x, exp, "a")
  {
    FinalDirsMatch(x, exp);
    assert exp[..3][1] == '/' && "**/"[1] == '*';
    CheckedBySuffix(exp, 1);
    assert exp[4..] == "/";
    SuffixRejects(x, exp, "a");
  }

  lemma BraceMatches(x: Syntax, exp: string)
    requires Lawful(x) && exp == "{**,a}/foo" && x.length(exp) == 6 && x.choices(exp) == ["**", "a"]
    ensures Matches(x, exp, true, "foo")
  {
    var whole := x.choices(exp)[0] + exp[6..];
    assert exp[6..] == "/foo" && whole == "**/foo" && whole[3..] == "foo";
    assert AllDirs(x, whole, "foo");
    AllDirsMatchText(x, exp, "foo");
  }

  lemma BraceIsChecked(exp: string)
    requires exp == "{**,a}/foo"
    ensures UsesSuffix(exp) && PostOf(exp) == Some("/foo")
  {
    assert exp[6..] == "/foo";
    CheckedBySuffix(exp, 4);
  }

  lemma BraceRejects(x: Syntax, exp: string)
    requires Lawful(x) && exp == "{**,a}/foo" && x.length(exp) == 6 && x.choices(exp) == ["**", "a"]
    ensures Matches(x, exp, true, "foo") && !Fast(x, exp, "foo")
  {
    BraceMatches(x, exp);
    BraceIsChecked(exp);
    SuffixRejects(x, exp, "foo");
  }

  /** The fast matcher never accepts more than the reference. */
  lemma FastAcceptsNoMore(x: Syntax, exp: string, p: string)
    requires Lawful(x) && Fast(x, exp, p)
    ensures Matches(x, exp, true, p)
  {
    if IsPlain(exp) {
      PlainMatchesItself(x, exp, true, p);
    } else if PrefixDirOf(exp).Some? {
      PrefixDirIsExact(x, PrefixDirOf(exp).value, p);
    } else if PrePostOf(exp).Some? {
      PrePostIsExact(x, PrePostOf(exp).value, p);
    }
  }
}
