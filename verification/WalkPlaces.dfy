/**
 What the collected files of a directory are: the files reached from it through subdirectories
 without a BUILD file, each once, by the path of names that leads to it.
 */
module WalkPlaces {
  import opened Sorting
  import opened Strings
  import opened Walk

  /** The names of directories and of a file, joined by slashes. */
  function Slashed(names: seq<string>): string {
    if names == [] then "" else if |names| == 1 then names[0] else names[0] + "/" + Slashed(names[1..])
  }

  /** Which subdirectory to enter at each level, and which file to take in the last one. */
  datatype Place = Place(steps: seq<nat>, file: nat)

  /** The directory that the steps lead to; they do not enter a directory with a BUILD file. */
  ghost predicate LeadsTo(d: Dir, steps: seq<nat>, names: seq<string>, last: Dir)
    decreases |steps|
  {
    if steps == [] then names == [] && last == d
    else
      && names != [] && steps[0] < |d.subdirs|
      && var sub := d.subdirs[steps[0]];
         !sub.dir.hasBuild && names[0] == sub.name && LeadsTo(sub.dir, steps[1..], names[1..], last)
  }

  /** There is a file at the place, and this is its path from the directory. */
  ghost predicate FileAt(d: Dir, place: Place, text: string) {
    exists names, last :: LeadsTo(d, place.steps, names, last) && place.file < |last.files|
      && text == Slashed(names + [last.files[place.file]])
  }

  ghost predicate DistinctPlaces(places: seq<Place>) {
    forall i, j :: 0 <= i < j < |places| ==> places[i] != places[j]
  }

  /** A directory has a name. */
  ghost predicate Named(d: Dir)
    decreases d
  {
    forall i :: 0 <= i < |d.subdirs| ==> d.subdirs[i].name != "" && Named(d.subdirs[i].dir)
  }

  /** The texts at the places, one for one. */
  ghost predicate FilesAt(d: Dir, places: seq<Place>, texts: seq<string>) {
    |texts| == |places| && forall i :: 0 <= i < |places| ==> FileAt(d, places[i], texts[i])
  }

  ghost predicate IsPlace(d: Dir, place: Place) {
    exists text :: FileAt(d, place, text)
  }

  /******* One level *******/

  function Below(k: nat, place: Place): Place {
    Place([k] + place.steps, place.file)
  }

  lemma FileBelow(d: Dir, k: nat, place: Place, text: string)
    requires k < |d.subdirs| && !d.subdirs[k].dir.hasBuild && FileAt(d.subdirs[k].dir, place, text)
    ensures FileAt(d, Below(k, place), d.subdirs[k].name + "/" + text)
  {
    var sub := d.subdirs[k];
    var names, last :| LeadsTo(sub.dir, place.steps, names, last) && place.file < |last.files|
      && text == Slashed(names + [last.files[place.file]]);
    var steps, more := [k] + place.steps, [sub.name] + names;
    assert steps[1..] == place.steps && more[1..] == names;
    assert LeadsTo(d, steps, more, last);
    assert (more + [last.files[place.file]])[1..] == names + [last.files[place.file]];
  }

  lemma FileIsBelow(d: Dir, place: Place, text: string) returns (rest: string)
    requires FileAt(d, place, text) && place.steps != []
    ensures var k := place.steps[0];
      && k < |d.subdirs| && !d.subdirs[k].dir.hasBuild
      && FileAt(d.subdirs[k].dir, Place(place.steps[1..], place.file), rest)
  {
    var names, last :| LeadsTo(d, place.steps, names, last) && place.file < |last.files|
      && text == Slashed(names + [last.files[place.file]]);
    rest := Slashed(names[1..] + [last.files[place.file]]);
    assert LeadsTo(d.subdirs[place.steps[0]].dir, place.steps[1..], names[1..], last);
  }

  lemma FileHere(d: Dir, n: nat)
    requires n < |d.files|
    ensures FileAt(d, Place([], n), d.files[n])
  {
    assert LeadsTo(d, [], [], d) && [] + [d.files[n]] == [d.files[n]];
  }

  function Under(rel: string, texts: seq<string>): seq<string> {
    seq(|texts|, i requires 0 <= i < |texts| => rel + "/" + texts[i])
  }

  lemma {:induction false} OwnFilesAreUnder(rel: string, files: seq<string>)
    ensures OwnFiles(rel, files) == Under(rel, files)
  {
    if files != [] {
      OwnFilesAreUnder(rel, files[1..]);
    }
  }

  lemma UnderUnder(rel: string, name: string, texts: seq<string>)
    requires name != ""
    ensures Under(rel + "/" + name, texts) == Under(rel, Under(name, texts))
  {
    forall i | 0 <= i < |texts| ensures rel + "/" + name + "/" + texts[i] == rel + "/" + (name + "/" + texts[i]) {
    }
  }

  lemma UnderAppends(rel: string, a: seq<string>, b: seq<string>)
    ensures Under(rel, a + b) == Under(rel, a) + Under(rel, b)
  {
  }

  /******* All levels *******/

  /** The own files of a directory, by their numbers. */
  lemma OwnPlaces(d: Dir) returns (places: seq<Place>)
    ensures FilesAt(d, places, d.files) && DistinctPlaces(places)
    ensures forall place: Place :: place in places <==> place.steps == [] && place.file < |d.files|
  {
    places := seq(|d.files|, i requires 0 <= i < |d.files| => Place([], i));
    forall i | 0 <= i < |places| ensures FileAt(d, places[i], d.files[i]) {
      FileHere(d, i);
    }
    forall place: Place | place.steps == [] && place.file < |d.files| ensures place in places {
      assert places[place.file] == place;
    }
  }

  /** The files below one subdirectory, seen from the directory above. */
  lemma PlacesBelow(d: Dir, k: nat, places: seq<Place>, texts: seq<string>) returns (below: seq<Place>)
    requires k < |d.subdirs| && !d.subdirs[k].dir.hasBuild
    requires FilesAt(d.subdirs[k].dir, places, texts) && DistinctPlaces(places)
    ensures FilesAt(d, below, Under(d.subdirs[k].name, texts)) && DistinctPlaces(below)
    ensures forall place: Place :: place in below <==>
      place.steps != [] && place.steps[0] == k && Place(place.steps[1..], place.file) in places
  {
    below := seq(|places|, i requires 0 <= i < |places| => Below(k, places[i]));
    forall i | 0 <= i < |below| ensures FileAt(d, below[i], Under(d.subdirs[k].name, texts)[i]) {
      FileBelow(d, k, places[i], texts[i]);
    }
    forall i | 0 <= i < |below| ensures below[i].steps[1..] == places[i].steps {
    }
    forall place: Place | place.steps != [] && place.steps[0] == k && Place(place.steps[1..], place.file) in places
      ensures place in below
    {
      var i :| 0 <= i < |places| && places[i] == Place(place.steps[1..], place.file);
      assert below[i].steps == place.steps;
    }
  }

  /** The places that start in a subdirectory from k on. */
  predicate StartsFrom(place: Place, k: nat) {
    place.steps != [] && place.steps[0] >= k
  }

  lemma PlaceBelowIsPlace(d: Dir, place: Place)
    requires place.steps != []
    ensures IsPlace(d, place) <==> EntersPlace(d, place)
  {
    var k, rest := place.steps[0], Place(place.steps[1..], place.file);
    if IsPlace(d, place) {
      var text :| FileAt(d, place, text);
      var below := FileIsBelow(d, place, text);
    }
    if EntersPlace(d, place) {
      var text :| FileAt(d.subdirs[k].dir, rest, text);
      FileBelow(d, k, rest, text);
      assert Below(k, rest) == place;
    }
  }

  /** The first step enters a subdirectory without a BUILD file, and the rest is a place in it. */
  ghost predicate EntersPlace(d: Dir, place: Place)
    requires place.steps != []
  {
    && place.steps[0] < |d.subdirs| && !d.subdirs[place.steps[0]].dir.hasBuild
    && IsPlace(d.subdirs[place.steps[0]].dir, Place(place.steps[1..], place.file))
  }

  lemma Joined(d: Dir, places: seq<Place>, texts: seq<string>, more: seq<Place>, others: seq<string>)
    requires FilesAt(d, places, texts) && DistinctPlaces(places) && FilesAt(d, more, others) && DistinctPlaces(more)
    requires forall place: Place :: place in places ==> place !in more
    ensures FilesAt(d, places + more, texts + others) && DistinctPlaces(places + more)
  {
    var all := places + more;
    forall i | 0 <= i < |all| ensures FileAt(d, all[i], (texts + others)[i]) {
      assert if i < |places| then FileAt(d, places[i], texts[i]) else FileAt(d, more[i - |places|], others[i - |places|]);
    }
    forall i, j | 0 <= i < j < |all| ensures all[i] != all[j] {
      if i < |places| <= j {
        assert all[i] in places && all[j] in more;
      }
    }
  }

  lemma PlaceHere(d: Dir, place: Place)
    requires place.steps == []
    ensures IsPlace(d, place) <==> place.file < |d.files|
  {
    if place.file < |d.files| {
      FileHere(d, place.file);
    }
  }

  /** The files of a directory and below: its own, and what the plain recursion lists for its subdirectories. */
  lemma {:induction false} AllPlaces(rel: string, d: Dir) returns (places: seq<Place>, more: seq<string>)
    requires Named(d)
    ensures FilesAt(d, places, d.files + more) && DistinctPlaces(places)
    ensures forall place: Place :: place in places <==> IsPlace(d, place)
    ensures FilesInSubs(rel, d.subdirs) == if rel == "" then more else Under(rel, more)
    decreases d, 1
  {
    var own := OwnPlaces(d);
    var subs;
    subs, more := PlacesFrom(rel, d, 0);
    places := own + subs;
    Joined(d, own, d.files, subs, more);
    assert d.subdirs[0..] == d.subdirs;
    forall place: Place ensures place in places <==> IsPlace(d, place) {
      if place.steps == [] {
        PlaceHere(d, place);
      }
    }
  }

  lemma {:induction false} PlacesFrom(rel: string, d: Dir, k: nat) returns (places: seq<Place>, texts: seq<string>)
    requires Named(d) && k <= |d.subdirs|
    ensures FilesAt(d, places, texts) && DistinctPlaces(places)
    ensures forall place: Place :: place in places <==> StartsFrom(place, k) && IsPlace(d, place)
    ensures FilesInSubs(rel, d.subdirs[k..]) == if rel == "" then texts else Under(rel, texts)
    decreases d, 0, |d.subdirs| - k
  {
    if k == |d.subdirs| {
      NoPlacesFrom(d, k);
      return [], [];
    }
    var later, others := PlacesFrom(rel, d, k + 1);
    var here, names := PlacesAt(rel, d, k);
    places, texts := here + later, names + others;
    Joined(d, here, names, later, others);
    assert d.subdirs[k..][0] == d.subdirs[k] && d.subdirs[k..][1..] == d.subdirs[k + 1..];
    UnderAppends(rel, names, others);
  }

  lemma NoPlacesFrom(d: Dir, k: nat)
    requires k >= |d.subdirs|
    ensures forall place: Place :: !(StartsFrom(place, k) && IsPlace(d, place))
  {
    forall place: Place | StartsFrom(place, k) ensures !IsPlace(d, place) {
      PlaceBelowIsPlace(d, place);
    }
  }

  /** The places in one subdirectory; the plain recursion lists their texts. */
  lemma {:induction false} PlacesAt(rel: string, d: Dir, k: nat) returns (places: seq<Place>, texts: seq<string>)
    requires Named(d) && k < |d.subdirs|
    ensures FilesAt(d, places, texts) && DistinctPlaces(places)
    ensures forall place: Place :: place in places <==> place.steps != [] && place.steps[0] == k && IsPlace(d, place)
    ensures FilesUnder(JoinRel(rel, d.subdirs[k].name), d.subdirs[k].dir) == if rel == "" then texts else Under(rel, texts)
    decreases d, 0, 0
  {
    var sub := d.subdirs[k];
    places, texts := [], [];
    if !sub.dir.hasBuild {
      var inside, more := AllPlaces(JoinRel(rel, sub.name), sub.dir);
      places := PlacesBelow(d, k, inside, sub.dir.files + more);
      texts := Under(sub.name, sub.dir.files + more);
      SubIsUnder(rel, sub, more);
    }
    forall place: Place | place.steps != [] && place.steps[0] == k ensures place in places <==> IsPlace(d, place) {
      PlaceBelowIsPlace(d, place);
    }
  }

  lemma SubIsUnder(rel: string, sub: Sub, more: seq<string>)
    requires sub.name != "" && !sub.dir.hasBuild
    requires FilesInSubs(JoinRel(rel, sub.name), sub.dir.subdirs) == Under(JoinRel(rel, sub.name), more)
    ensures var texts := Under(sub.name, sub.dir.files + more);
      FilesUnder(JoinRel(rel, sub.name), sub.dir) == if rel == "" then texts else Under(rel, texts)
  {
    var below := JoinRel(rel, sub.name);
    OwnFilesAreUnder(below, sub.dir.files);
    UnderAppends(below, sub.dir.files, more);
    if rel != "" {
      UnderUnder(rel, sub.name, sub.dir.files + more);
    }
  }

  /**
   The result holds, each once, the files at all places: what is reached from the root by names of
   subdirectories without a BUILD file, under those names and its own joined by slashes.
   */
  lemma AllFilesAreReached(root: Dir) returns (places: seq<Place>, texts: seq<string>)
    requires Named(root)
    ensures FilesAt(root, places, texts) && DistinctPlaces(places)
    ensures forall place: Place :: place in places <==> IsPlace(root, place)
    ensures multiset(AllFiles(root)) == multiset(texts)
  {
    var more;
    places, more := AllPlaces("", root);
    texts := root.files + more;
    LeqIsTotalOrder();
    SortSorts(Leq, texts);
  }
}
