/**
 Paths as texts: path.Clean and path.Join of Go's standard library on strings, tied to the segments
 of Paths, and cleanJoin3 of language/js/typescript/tsconfig.go.
 */
module PathTexts {
  import opened Wrappers
  import opened Strings
  import opened Paths

  predicate Rooted(text: string) {
    text != "" && text[0] == '/'
  }

  function Part(text: string): Path {
    if text == "" || text == "." then [] else if text == ".." then [Up] else [Name(text)]
  }

  /** The segments between the slashes; "" and "." do not count. */
  function Segments(text: string): Path
    decreases |text|
  {
    match Cut(text, '/')
    case None => Part(text)
    case Some((first, rest)) => Part(first) + Segments(rest)
  }

  function PartText(s: Segment): string {
    match s
    case Up => ".."
    case Name(text) => text
  }

  function Render(p: Path): string {
    if p == [] then "" else if |p| == 1 then PartText(p[0]) else PartText(p[0]) + "/" + Render(p[1..])
  }

  /** From the root there is no way further up. */
  function WithoutUps(p: Path): (r: Path)
    ensures IsClean(p) ==> forall i :: 0 <= i < |r| ==> r[i] != Up
  {
    if p != [] && p[0] == Up then WithoutUps(p[1..])
    else
      assert IsClean(p) && p != [] ==> forall i :: 0 <= i < |p| ==> p[i] != Up by {
        if IsClean(p) && p != [] {
          NoUpsAfterName(p, 0);
        }
      }
      p
  }

  /** path.Clean. */
  function CleanText(text: string): string {
    var p := Clean(Segments(text));
    if Rooted(text) then "/" + Render(WithoutUps(p)) else if p == [] then "." else Render(p)
  }

  function Glue(a: string, b: string): string {
    if a == "" then b else a + "/" + b
  }

  /** path.Join of three elements; without any text the result is empty and not ".". */
  function JoinTexts(a: string, b: string, c: string): string {
    if a == "" && b == "" && c == "" then "" else CleanText(Glue(Glue(a, b), c))
  }

  predicate IsHere(text: string) {
    text == "" || text == "."
  }

  /** cleanJoin3: leaves out "" and "." in front and cleans once. */
  function CleanJoinTexts(a: string, b: string, c: string): string {
    if IsHere(a) && IsHere(b) then CleanText(c)
    else if IsHere(a) then CleanText(b + "/" + c)
    else if IsHere(b) then CleanText(a + "/" + c)
    else CleanText(a + "/" + b + "/" + c)
  }

  /******* What a text and its cleaned form mean *******/

  lemma {:induction false} SegmentsOfJoined(a: string, b: string)
    ensures Segments(a + "/" + b) == Segments(a) + Segments(b)
    decreases |a|
  {
    var text := a + "/" + b;
    match Cut(a, '/')
    case None =>
      CutIsUnique(text, '/', a, b);
    case Some((first, rest)) =>
      assert text == first + ['/'] + (rest + "/" + b);
      CutIsUnique(text, '/', first, rest + "/" + b);
      SegmentsOfJoined(rest, b);
  }

  /** Segments that come from a text. */
  predicate IsProper(p: Path) {
    forall i :: 0 <= i < |p| && p[i].Name? ==> p[i].text != "" && p[i].text != "." && p[i].text != ".." && '/' !in p[i].text
  }

  lemma {:induction false} SegmentsAreProper(text: string)
    ensures IsProper(Segments(text))
    decreases |text|
  {
    var cut := Cut(text, '/');
    if cut.Some? {
      SegmentsAreProper(cut.value.1);
    }
  }

  lemma {:induction false} CleanIsProper(p: Path)
    requires IsProper(p)
    ensures IsProper(Clean(p))
  {
    if p != [] {
      CleanIsProper(p[..|p| - 1]);
    }
  }

  lemma {:induction false} SegmentsOfRender(p: Path)
    requires IsProper(p)
    ensures Segments(Render(p)) == p && !Rooted(Render(p))
  {
    if p != [] {
      var first := PartText(p[0]);
      assert '/' !in first && Segments(first) == [p[0]];
      if |p| > 1 {
        SegmentsOfJoined(first, Render(p[1..]));
        SegmentsOfRender(p[1..]);
      }
      assert p == [p[0]] + p[1..];
    }
  }

  function Meaning(text: string): Path {
    if Rooted(text) then WithoutUps(Clean(Segments(text))) else Clean(Segments(text))
  }

  lemma {:induction false} WithoutUpsIsProper(p: Path)
    requires IsProper(p)
    ensures IsProper(WithoutUps(p))
  {
    if p != [] {
      WithoutUpsIsProper(p[1..]);
    }
  }

  lemma MeaningIsClean(text: string)
    ensures IsProper(Meaning(text)) && IsClean(Meaning(text))
    ensures Rooted(text) ==> WithoutUps(Meaning(text)) == Meaning(text)
  {
    SegmentsAreProper(text);
    CleanIsProper(Segments(text));
    WithoutUpsIsProper(Clean(Segments(text)));
  }

  /** Cleaning keeps what the text means and whether it starts at the root. */
  lemma CleaningKeepsMeaning(text: string)
    ensures Segments(CleanText(text)) == Meaning(text) && Rooted(CleanText(text)) == Rooted(text)
  {
    var p := Meaning(text);
    MeaningIsClean(text);
    SegmentsOfRender(p);
    if Rooted(text) {
      assert CleanText(text) == "" + "/" + Render(p);
      SegmentsOfJoined("", Render(p));
    }
  }

  /** Two texts have one cleaned form exactly when they mean the same path from the same start. */
  lemma SameCleanText(s: string, t: string)
    ensures CleanText(s) == CleanText(t) <==> Rooted(s) == Rooted(t) && Meaning(s) == Meaning(t)
  {
    CleaningKeepsMeaning(s);
    CleaningKeepsMeaning(t);
  }

  /******* cleanJoin3 against path.Join *******/

  /** A "." left out in front of a text that starts with a slash: that makes the result rooted. */
  predicate LosesDot(a: string, b: string, c: string) {
    IsHere(a) && Rooted(if IsHere(b) then c else b) && (a == "." || b == ".")
  }

  lemma SegmentsOfGlue(a: string, b: string)
    ensures Segments(Glue(a, b)) == Segments(a) + Segments(b)
    ensures Rooted(Glue(a, b)) == Rooted(if a == "" then b else a)
  {
    SegmentsOfJoined(a, b);
  }

  /** The text that cleanJoin3 cleans. */
  function Kept(a: string, b: string, c: string): string {
    if IsHere(a) && IsHere(b) then c
    else if IsHere(a) then b + "/" + c
    else if IsHere(b) then a + "/" + c
    else a + "/" + b + "/" + c
  }

  lemma SegmentsOfKept(a: string, b: string, c: string)
    ensures Segments(Kept(a, b, c)) == Segments(a) + Segments(b) + Segments(c)
  {
    if IsHere(a) && IsHere(b) {
      assert [] + [] + Segments(c) == Segments(c);
    } else if IsHere(a) {
      SegmentsOfJoined(b, c);
      assert [] + Segments(b) == Segments(b);
    } else if IsHere(b) {
      SegmentsOfJoined(a, c);
      assert Segments(a) + [] == Segments(a);
    } else {
      SegmentsOfJoined(a, b);
      SegmentsOfJoined(a + "/" + b, c);
    }
  }

  /** It equals path.Join exactly when there is some text and no such dot is lost. */
  lemma CleanJoinIsJoin(a: string, b: string, c: string)
    ensures CleanJoinTexts(a, b, c) == JoinTexts(a, b, c) <==> (a + b + c != "" && !LosesDot(a, b, c))
  {
    var kept, glued := Kept(a, b, c), Glue(Glue(a, b), c);
    SegmentsOfKept(a, b, c);
    SegmentsOfGlue(a, b);
    SegmentsOfGlue(Glue(a, b), c);
    SameCleanText(kept, glued);
    assert CleanJoinTexts(a, b, c) == CleanText(kept);
    assert a + b + c == "" <==> a == "" && b == "" && c == "";
  }

  lemma SegmentsOfSlashA()
    ensures Segments("/a") == [Name("a")]
  {
    CutIsUnique("/a", '/', "", "a");
    assert [] + [Name("a")] == [Name("a")];
  }

  lemma CleanOfA(text: string)
    requires Segments(text) == [Name("a")]
    ensures CleanText(text) == if Rooted(text) then "/a" else "a"
  {
    CleanOfClean([Name("a")]);
    assert WithoutUps([Name("a")]) == [Name("a")] && Render([Name("a")]) == "a";
  }

  lemma JoinOfDot(c: string)
    requires Segments(c) == [Name("a")]
    ensures JoinTexts(".", "", c) == "a"
  {
    var glued := Glue(Glue(".", ""), c);
    SegmentsOfGlue(".", "");
    SegmentsOfGlue(Glue(".", ""), c);
    assert Segments(glued) == [] + [] + [Name("a")] == [Name("a")];
    CleanOfA(glued);
  }

  /** Without the "." in front of "/a" the result starts at the root. */
  lemma LostDotDiffers()
    ensures CleanJoinTexts(".", "", "/a") == "/a" && JoinTexts(".", "", "/a") == "a"
  {
    SegmentsOfSlashA();
    CleanOfA("/a");
    JoinOfDot("/a");
  }

  /** On texts that do not start at the root it is the join of the three segment paths. */
  lemma CleanJoinMeans(a: string, b: string, c: string)
    requires !Rooted(a) && !Rooted(b) && !Rooted(c)
    ensures Segments(CleanJoinTexts(a, b, c)) == CleanJoin3(Segments(a), Segments(b), Segments(c))
  {
    var kept := Kept(a, b, c);
    SegmentsOfKept(a, b, c);
    CleaningKeepsMeaning(kept);
    CleanJoin3IsJoin(Segments(a), Segments(b), Segments(c));
    CleanLeft(Segments(a) + Segments(b), Segments(c));
    assert !Rooted(kept);
  }
}
