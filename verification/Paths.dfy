/**
 Relative paths as sequences of segments, with path.Clean, path.Join, path.Dir and filepath.Rel of
 Go's standard library on them.  "." is the empty sequence.
 */
module Paths {
  import opened Wrappers

  datatype Segment = Up | Name(text: string)

  type Path = seq<Segment>

  /** A clean path is some ups followed by names. */
  ghost predicate IsClean(p: Path) {
    forall i :: 0 < i < |p| && p[i] == Up ==> p[i - 1] == Up
  }

  function Push(p: Path, s: Segment): Path {
    if s == Up && p != [] && p[|p| - 1] != Up then p[..|p| - 1] else p + [s]
  }

  function Clean(p: Path): (r: Path)
    ensures IsClean(r)
  {
    if p == [] then [] else Push(Clean(p[..|p| - 1]), p[|p| - 1])
  }

  function Join(a: Path, b: Path): Path {
    Clean(a + b)
  }

  /** path.Dir of a clean path. */
  function Dir(p: Path): (r: Path)
    ensures IsClean(p) ==> IsClean(r)
  {
    if p == [] then [] else p[..|p| - 1]
  }

  function Ups(n: nat): Path {
    seq(n, i => Up)
  }

  function CommonPrefix(a: Path, b: Path): (n: nat)
    ensures n <= |a| && n <= |b| && a[..n] == b[..n]
    ensures n < |a| && n < |b| ==> a[n] != b[n]
  {
    if a == [] || b == [] || a[0] != b[0] then 0 else 1 + CommonPrefix(a[1..], b[1..])
  }

  /** filepath.Rel: there is no way down from a directory whose name is unknown. */
  function Rel(base: Path, target: Path): Option<Path> {
    var n := CommonPrefix(base, target);
    if n < |base| && base[n] == Up then None else Some(Ups(|base| - n) + target[n..])
  }

  /** How many levels above the workspace root a clean path starts. */
  function Height(p: Path): (n: nat)
    ensures n <= |p| && (forall i :: 0 <= i < n ==> p[i] == Up) && (n < |p| ==> p[n] != Up)
  {
    if p != [] && p[0] == Up then 1 + Height(p[1..]) else 0
  }

  /******* Laws *******/

  lemma CleanSnoc(p: Path, s: Segment)
    ensures Clean(p + [s]) == Push(Clean(p), s)
  {
    assert (p + [s])[..|p|] == p;
  }

  lemma {:induction false} CleanOfClean(p: Path)
    requires IsClean(p)
    ensures Clean(p) == p
  {
    if p != [] {
      CleanOfClean(p[..|p| - 1]);
      assert p == p[..|p| - 1] + [p[|p| - 1]];
    }
  }

  lemma {:induction false} CleanLeft(a: Path, b: Path)
    ensures Clean(Clean(a) + b) == Clean(a + b)
  {
    if b == [] {
      assert a + b == a && Clean(a) + b == Clean(a);
      CleanOfClean(Clean(a));
    } else {
      var front, last := b[..|b| - 1], b[|b| - 1];
      assert Clean(a + b) == Push(Clean(a + front), last) by {
        assert a + b == (a + front) + [last];
        CleanSnoc(a + front, last);
      }
      assert Clean(Clean(a) + b) == Push(Clean(Clean(a) + front), last) by {
        assert Clean(a) + b == (Clean(a) + front) + [last];
        CleanSnoc(Clean(a) + front, last);
      }
      CleanLeft(a, front);
    }
  }

  lemma {:induction false} CleanRight(a: Path, b: Path)
    ensures Clean(a + Clean(b)) == Clean(a + b)
  {
    if b != [] {
      var front, last := b[..|b| - 1], b[|b| - 1];
      assert Clean(a + b) == Push(Clean(a + front), last) by {
        assert a + b == (a + front) + [last];
        CleanSnoc(a + front, last);
      }
      assert Clean(a + Clean(b)) == Push(Clean(a + Clean(front)), last) by {
        CleanOfPush(a, Clean(front), last);
      }
      CleanRight(a, front);
    }
  }

  lemma CleanOfPush(a: Path, c: Path, s: Segment)
    ensures Clean(a + Push(c, s)) == Push(Clean(a + c), s)
  {
    if s == Up && c != [] && c[|c| - 1] != Up {
      var front, last := c[..|c| - 1], c[|c| - 1];
      assert a + c == (a + front) + [last];
      CleanSnoc(a + front, last);
      PushThenUp(Clean(a + front), last);
    } else {
      assert a + (c + [s]) == (a + c) + [s];
      CleanSnoc(a + c, s);
    }
  }

  lemma PushThenUp(p: Path, name: Segment)
    requires name != Up
    ensures Push(Push(p, name), Up) == p
  {
    assert (p + [name])[..|p|] == p;
  }

  lemma JoinAssociates(a: Path, b: Path, c: Path)
    ensures Join(a, Join(b, c)) == Join(Join(a, b), c)
  {
    var x, y := a + (b + c), (a + b) + c;
    assert x == y;
    assert Join(a, Join(b, c)) == Clean(x) by {
      CleanRight(a, b + c);
    }
    assert Join(Join(a, b), c) == Clean(y) by {
      CleanLeft(a + b, c);
    }
  }

  /** cleanJoin3: leaves out "." in front and cleans once. */
  function CleanJoin3(a: Path, b: Path, c: Path): Path {
    if a == [] && b == [] then Clean(c)
    else if a == [] then Clean(b + c)
    else if b == [] then Clean(a + c)
    else Clean(a + b + c)
  }

  /** It is path.Join of the three. */
  lemma CleanJoin3IsJoin(a: Path, b: Path, c: Path)
    ensures CleanJoin3(a, b, c) == Join(Join(a, b), c)
  {
    assert a == [] ==> a + b == b;
    assert b == [] ==> a + b == a;
    assert a == [] && b == [] ==> a + b + c == c;
    CleanLeft(a + b, c);
  }

  lemma {:induction false} UpsUndoNames(p: Path, names: Path)
    requires forall i :: 0 <= i < |names| ==> names[i] != Up
    ensures Clean(p + names + Ups(|names|)) == Clean(p)
  {
    if names == [] {
      assert p + names + Ups(0) == p;
    } else {
      var front, last, n := names[..|names| - 1], names[|names| - 1], |names| - 1;
      assert p + names + Ups(|names|) == ((p + front) + [last] + [Up]) + Ups(n);
      CleanSnoc(p + front, last);
      CleanSnoc(p + front + [last], Up);
      PushThenUp(Clean(p + front), last);
      CleanLeft(p + front + [last] + [Up], Ups(n));
      CleanLeft(p + front, Ups(n));
      UpsUndoNames(p, front);
    }
  }

  lemma NoUpsAfterName(p: Path, n: nat)
    requires IsClean(p) && n < |p| && p[n] != Up
    ensures forall i :: n <= i < |p| ==> p[i] != Up
  {
    var i := n + 1;
    while i < |p|
      invariant n < i <= |p| && forall j :: n <= j < i ==> p[j] != Up
    {
      assert p[i - 1] != Up;
      i := i + 1;
    }
  }

  lemma UpAndDown(common: Path, names: Path, rest: Path)
    requires forall i :: 0 <= i < |names| ==> names[i] != Up
    ensures Join(common + names, Ups(|names|) + rest) == Clean(common + rest)
  {
    var up := common + names + Ups(|names|);
    assert (common + names) + (Ups(|names|) + rest) == up + rest;
    assert Clean(up) == Clean(common) by {
      UpsUndoNames(common, names);
    }
    CleanLeft(up, rest);
    CleanLeft(common, rest);
  }

  /** Following the relative path from the base leads to the target. */
  lemma RelLeadsToTarget(base: Path, target: Path)
    requires IsClean(base) && IsClean(target) && Rel(base, target).Some?
    ensures Join(base, Rel(base, target).value) == target
  {
    var n := CommonPrefix(base, target);
    var common, names, rest := base[..n], base[n..], target[n..];
    if n < |base| {
      NoUpsAfterName(base, n);
    }
    UpAndDown(common, names, rest);
    assert base == common + names && target == common + rest;
    assert Clean(common + rest) == target by {
      CleanOfClean(target);
    }
  }

  /** A relative path exists unless the base lies further above the root than the target. */
  lemma RelExists(base: Path, target: Path)
    requires IsClean(base) && IsClean(target)
    ensures Rel(base, target).Some? <==> Height(base) <= Height(target)
  {
    var n := CommonPrefix(base, target);
    var hb, ht := Height(base), Height(target);
    assert forall i :: 0 <= i < n ==> base[i] == base[..n][i] == target[..n][i] == target[i];
    if hb < |base| {
      NoUpsAfterName(base, hb);
    }
    if ht < |target| {
      NoUpsAfterName(target, ht);
    }
  }

  /******* Rebasing: re-expressing a path relative to dir as a path relative to current *******/

  /** An impossible relative path counts as ".". */
  function RelOrDot(current: Path, dir: Path): Path {
    match Rel(current, dir)
    case None => []
    case Some(r) => r
  }

  function Rebase(current: Path, dir: Path, p: Path): Path {
    Join(RelOrDot(current, dir), p)
  }

  lemma RebaseKeepsLocation(current: Path, dir: Path, p: Path)
    requires IsClean(current) && IsClean(dir) && Height(current) <= Height(dir)
    ensures Join(current, Rebase(current, dir, p)) == Join(dir, p)
  {
    RelExists(current, dir);
    RelLeadsToTarget(current, dir);
    JoinAssociates(current, RelOrDot(current, dir), p);
  }

  /** Otherwise even the directory itself, ".", is lost. */
  lemma RebaseLosesLocation(current: Path, dir: Path)
    requires IsClean(current) && IsClean(dir) && Height(current) > Height(dir)
    ensures Join(current, Rebase(current, dir, [])) == current != dir == Join(dir, [])
  {
    RelExists(current, dir);
    assert current + [] == current && dir + [] == dir;
    CleanOfClean(current);
    CleanOfClean(dir);
  }

  /** Rebasing keeps every location exactly when current does not lie further above the root. */
  lemma RebaseKeepsAllLocations(current: Path, dir: Path)
    requires IsClean(current) && IsClean(dir)
    ensures (forall p :: Join(current, Rebase(current, dir, p)) == Join(dir, p)) <==> Height(current) <= Height(dir)
  {
    if Height(current) <= Height(dir) {
      forall p ensures Join(current, Rebase(current, dir, p)) == Join(dir, p) {
        RebaseKeepsLocation(current, dir, p);
      }
    } else {
      RebaseLosesLocation(current, dir);
    }
  }

  /** Joining never climbs down: the result lies at least as far above the root as its start. */
  lemma {:induction false} JoinKeepsHeight(dir: Path, p: Path)
    requires IsClean(dir)
    ensures Height(Join(dir, p)) >= Height(dir)
  {
    if p == [] {
      assert dir + p == dir;
      CleanOfClean(dir);
    } else {
      var front, last := p[..|p| - 1], p[|p| - 1];
      JoinKeepsHeight(dir, front);
      assert dir + p == (dir + front) + [last];
      CleanSnoc(dir + front, last);
      PushKeepsHeight(Clean(dir + front), last);
    }
  }

  lemma PushKeepsHeight(p: Path, s: Segment)
    requires IsClean(p)
    ensures Height(Push(p, s)) >= Height(p)
  {
    if s == Up && p != [] && p[|p| - 1] != Up {
      assert forall i :: 0 <= i < Height(p) ==> p[..|p| - 1][i] == p[i];
    } else {
      assert forall i :: 0 <= i < Height(p) ==> (p + [s])[i] == p[i];
    }
  }

  lemma {:induction false} NamesStay(p: Path, names: Path)
    requires forall i :: 0 <= i < |names| ==> names[i] != Up
    ensures Clean(p + names) == Clean(p) + names
    decreases |names|
  {
    if names == [] {
      assert p + names == p && Clean(p) + names == Clean(p);
    } else {
      var q, rest := p + [names[0]], names[1..];
      assert Clean(q) == Clean(p) + [names[0]] by {
        CleanSnoc(p, names[0]);
      }
      assert p + names == q + rest && Clean(p) + names == Clean(q) + rest;
      NamesStay(q, rest);
    }
  }

  lemma JoinClimbing(dir: Path, n: nat, names: Path)
    requires forall i :: 0 <= i < |names| ==> names[i] != Up
    ensures Join(dir, Ups(n) + names) == Join(dir, Ups(n)) + names
  {
    assert dir + (Ups(n) + names) == (dir + Ups(n)) + names;
    NamesStay(dir + Ups(n), names);
  }

  /** A path means the same from two directories exactly when it climbs to the same ancestor of both. */
  lemma SamePlace(a: Path, b: Path, p: Path)
    requires IsClean(p)
    ensures Join(a, p) == Join(b, p) <==> Join(a, Ups(Height(p))) == Join(b, Ups(Height(p)))
  {
    var n := Height(p);
    if n < |p| {
      NoUpsAfterName(p, n);
    }
    assert p == Ups(n) + p[n..];
    JoinClimbing(a, n, p[n..]);
    JoinClimbing(b, n, p[n..]);
    SameFront(Join(a, Ups(n)), Join(b, Ups(n)), p[n..]);
  }

  lemma SameFront(x: Path, y: Path, rest: Path)
    ensures x + rest == y + rest <==> x == y
  {
    if x + rest == y + rest {
      assert |x| == |y|;
      assert x == (x + rest)[..|x|] == (y + rest)[..|y|] == y;
    }
  }
}
