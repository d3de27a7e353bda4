/**
 How the files of a package are shared out between the source, asset and data files of its target
 groups, and how groups claim the data files their sources import.
 */
module DataFiles {
  import opened Wrappers

  /******* Which target group a file belongs to *******/

  /** A target group: its name, and whether one of its source or asset globs accepts a file. */
  datatype Target = Target(name: string, sourceGlobs: seq<string>, assetGlobs: seq<string>)

  datatype Entry = Entry(target: string, glob: string)

  /** The last target with a glob that accepts the file; a glob accepts by the given predicate. */
  ghost predicate IsLastMatch(targets: seq<Target>, globsOf: Target -> seq<string>, accepts: (string, string) -> bool,
                              file: string, r: Option<string>) {
    if r.None? then forall i :: 0 <= i < |targets| ==> !SomeGlob(globsOf(targets[i]), accepts, file)
    else exists i :: 0 <= i < |targets| && LastAt(targets, globsOf, accepts, file, i) && targets[i].name == r.value
  }

  ghost predicate LastAt(targets: seq<Target>, globsOf: Target -> seq<string>, accepts: (string, string) -> bool,
                         file: string, i: nat)
    requires i < |targets|
  {
    && SomeGlob(globsOf(targets[i]), accepts, file)
    && forall j :: i < j < |targets| ==> !SomeGlob(globsOf(targets[j]), accepts, file)
  }

  ghost predicate SomeGlob(globs: seq<string>, accepts: (string, string) -> bool, file: string) {
    exists k :: 0 <= k < |globs| && accepts(globs[k], file)
  }

  /** newTargetGlobClassifier: the entries of the targets, last target first. */
  method ClassifierEntries(targets: seq<Target>, globsOf: Target -> seq<string>) returns (entries: seq<Entry>)
    ensures entries == EntriesFrom(targets, globsOf, 0)
  {
    entries := [];
    var i := |targets|;
    while i > 0
      invariant 0 <= i <= |targets|
      invariant entries == EntriesFrom(targets, globsOf, i)
    {
      i := i - 1;
      var globs := globsOf(targets[i]);
      for k := 0 to |globs|
        invariant entries == EntriesFrom(targets, globsOf, i + 1) + TargetEntries(targets[i].name, globs)[..k]
      {
        entries := entries + [Entry(targets[i].name, globs[k])];
      }
      assert TargetEntries(targets[i].name, globs)[..|globs|] == TargetEntries(targets[i].name, globs);
    }
  }

  function TargetEntries(name: string, globs: seq<string>): seq<Entry> {
    seq(|globs|, k requires 0 <= k < |globs| => Entry(name, globs[k]))
  }

  function EntriesFrom(targets: seq<Target>, globsOf: Target -> seq<string>, i: nat): seq<Entry>
    requires i <= |targets|
    decreases |targets| - i
  {
    if i == |targets| then []
    else EntriesFrom(targets, globsOf, i + 1) + TargetEntries(targets[i].name, globsOf(targets[i]))
  }

  /** The first entry that accepts the file decides. */
  function Classify(entries: seq<Entry>, accepts: (string, string) -> bool, file: string): Option<string> {
    if entries == [] then None
    else if accepts(entries[0].glob, file) then Some(entries[0].target)
    else Classify(entries[1..], accepts, file)
  }

  lemma {:induction false} ClassifyAppend(a: seq<Entry>, b: seq<Entry>, accepts: (string, string) -> bool, file: string)
    ensures Classify(a + b, accepts, file)
      == if Classify(a, accepts, file).Some? then Classify(a, accepts, file) else Classify(b, accepts, file)
  {
    if a == [] {
      assert a + b == b;
    } else {
      assert (a + b)[0] == a[0] && (a + b)[1..] == a[1..] + b;
      ClassifyAppend(a[1..], b, accepts, file);
    }
  }

  lemma {:induction false} ClassifyTarget(name: string, globs: seq<string>, accepts: (string, string) -> bool, file: string)
    ensures Classify(TargetEntries(name, globs), accepts, file) == if SomeGlob(globs, accepts, file) then Some(name) else None
  {
    if globs != [] {
      assert TargetEntries(name, globs)[1..] == TargetEntries(name, globs[1..]);
      ClassifyTarget(name, globs[1..], accepts, file);
      if SomeGlob(globs, accepts, file) {
        var k :| 0 <= k < |globs| && accepts(globs[k], file);
        assert k > 0 ==> accepts(globs[1..][k - 1], file);
      }
      if SomeGlob(globs[1..], accepts, file) {
        var k :| 0 <= k < |globs| - 1 && accepts(globs[1..][k], file);
        assert accepts(globs[k + 1], file);
      }
    }
  }

  /** The classifier gives the last target with a matching glob. */
  lemma {:induction false} ClassifiesByLastTarget(targets: seq<Target>, globsOf: Target -> seq<string>,
                                                  accepts: (string, string) -> bool, file: string, i: nat)
    requires i <= |targets|
    ensures IsLastMatch(targets[i..], globsOf, accepts, file, Classify(EntriesFrom(targets, globsOf, i), accepts, file))
    decreases |targets| - i
  {
    if i < |targets| {
      var rest, own := EntriesFrom(targets, globsOf, i + 1), TargetEntries(targets[i].name, globsOf(targets[i]));
      ClassifiesByLastTarget(targets, globsOf, accepts, file, i + 1);
      ClassifyAppend(rest, own, accepts, file);
      ClassifyTarget(targets[i].name, globsOf(targets[i]), accepts, file);
      assert targets[i..][0] == targets[i] && targets[i..][1..] == targets[i + 1..];
      LastMatchOfOneMore(targets[i..], globsOf, accepts, file, Classify(rest, accepts, file));
    }
  }

  lemma LastMatchOfOneMore(targets: seq<Target>, globsOf: Target -> seq<string>, accepts: (string, string) -> bool,
                           file: string, r: Option<string>)
    requires targets != [] && IsLastMatch(targets[1..], globsOf, accepts, file, r)
    ensures IsLastMatch(targets, globsOf, accepts, file,
      if r.Some? then r else if SomeGlob(globsOf(targets[0]), accepts, file) then Some(targets[0].name) else None)
  {
    forall j | 1 <= j < |targets| ensures targets[j] == targets[1..][j - 1] {
    }
    if r.Some? {
      var i :| 0 <= i < |targets| - 1 && LastAt(targets[1..], globsOf, accepts, file, i) && targets[1..][i].name == r.value;
      assert LastAt(targets, globsOf, accepts, file, i + 1);
    } else if SomeGlob(globsOf(targets[0]), accepts, file) {
      assert LastAt(targets, globsOf, accepts, file, 0);
    }
  }

  /******* Sharing out the files *******/

  /** What decides where a file goes: whether it may be a source, and its source and asset group. */
  datatype Rules = Rules(maybeSource: string -> bool, sourceOf: string -> Option<string>, assetOf: string -> Option<string>)

  datatype Place = Source(group: string) | Asset(group: string) | Data

  function PlaceOf(rules: Rules, file: string): Place {
    if rules.maybeSource(file) && rules.sourceOf(file).Some? then Source(rules.sourceOf(file).value)
    else if rules.assetOf(file).Some? then Asset(rules.assetOf(file).value)
    else Data
  }

  type Groups = map<string, set<string>>

  predicate InGroup(groups: Groups, group: string, file: string) {
    group in groups && file in groups[group]
  }

  function AddTo(groups: Groups, group: string, file: string): Groups {
    groups[group := (if group in groups then groups[group] else {}) + {file}]
  }

  function DataOf(rules: Rules, files: seq<string>): seq<string> {
    if files == [] then []
    else
      var last := files[|files| - 1];
      DataOf(rules, files[..|files| - 1]) + if PlaceOf(rules, last) == Data then [last] else []
  }

  /** What the groups hold when these regular and generated files have been shared out. */
  ghost predicate SharedOut(rules: Rules, regular: seq<string>, gen: seq<string>,
                            sources: Groups, generated: Groups, assets: Groups, dataFiles: seq<string>) {
    && Grouped(rules, regular, sources, false)
    && Grouped(rules, gen, generated, false)
    && Grouped(rules, regular + gen, assets, true)
    && dataFiles == DataOf(rules, regular + gen)
  }

  /** A file that may be a source goes to its source group, if it has one. */
  predicate GoesToSources(rules: Rules, file: string) {
    rules.maybeSource(file) && rules.sourceOf(file).Some?
  }

  /** Other files are assets of their asset group, if they have one. */
  predicate GoesToAssets(rules: Rules, file: string) {
    rules.assetOf(file).Some? && (rules.sourceOf(file).None? || !rules.maybeSource(file))
  }

  /** Each group holds exactly its sources among some files, or its assets. */
  ghost predicate Grouped(rules: Rules, files: seq<string>, groups: Groups, assets: bool) {
    forall g, f :: InGroup(groups, g, f) <==>
      f in files && if assets then GoesToAssets(rules, f) && rules.assetOf(f) == Some(g)
                    else GoesToSources(rules, f) && rules.sourceOf(f) == Some(g)
  }

  lemma PlaceIs(rules: Rules, file: string)
    ensures forall g :: PlaceOf(rules, file) == Source(g) <==> GoesToSources(rules, file) && rules.sourceOf(file) == Some(g)
    ensures forall g :: PlaceOf(rules, file) == Asset(g) <==> GoesToAssets(rules, file) && rules.assetOf(file) == Some(g)
    ensures PlaceOf(rules, file) == Data <==> !GoesToSources(rules, file) && rules.assetOf(file).None?
  {
  }

  lemma GroupedOneMore(rules: Rules, files: seq<string>, groups: Groups, assets: bool, file: string)
    requires Grouped(rules, files, groups, assets)
    ensures var place := PlaceOf(rules, file);
      Grouped(rules, files + [file],
        if place != Data && place.Asset? == assets then AddTo(groups, place.group, file) else groups, assets)
  {
  }

  class FileGroups {
    const rules: Rules
    var sources: Groups
    var generated: Groups
    var assets: Groups
    var dataFiles: seq<string>

    constructor (rules: Rules)
      ensures this.rules == rules && Holds([], [])
    {
      this.rules := rules;
      sources, generated, assets, dataFiles := map[], map[], map[], [];
    }

    ghost predicate Holds(regular: seq<string>, gen: seq<string>)
      reads this
    {
      SharedOut(rules, regular, gen, sources, generated, assets, dataFiles)
    }

    /** processPotentialSourceFile, for a regular or a generated file. */
    method Process(isGenerated: bool, file: string)
      modifies this
      ensures var place := PlaceOf(rules, file);
        && sources == (if !isGenerated && place.Source? then AddTo(old(sources), place.group, file) else old(sources))
        && generated == (if isGenerated && place.Source? then AddTo(old(generated), place.group, file) else old(generated))
        && assets == (if place.Asset? then AddTo(old(assets), place.group, file) else old(assets))
        && dataFiles == (if place == Data then old(dataFiles) + [file] else old(dataFiles))
    {
      if rules.maybeSource(file) {
        var target := rules.sourceOf(file);
        if target.Some? {
          if isGenerated {
            generated := AddTo(generated, target.value, file);
          } else {
            sources := AddTo(sources, target.value, file);
          }
          return;
        }
      }
      var target := rules.assetOf(file);
      if target.Some? {
        assets := AddTo(assets, target.value, file);
        return;
      }
      dataFiles := dataFiles + [file];
    }

    /** One file more, of the list being shared out. */
    method ProcessNext(isGenerated: bool, file: string, ghost regular: seq<string>, ghost gen: seq<string>)
      requires Holds(regular, gen) && (isGenerated || gen == [])
      modifies this
      ensures if isGenerated then Holds(regular, gen + [file]) else Holds(regular + [file], [])
    {
      if isGenerated {
        GeneratedKeeps(rules, regular, gen, file, sources, generated, assets, dataFiles);
      } else {
        RegularKeeps(rules, regular, file, sources, generated, assets, dataFiles);
      }
      Process(isGenerated, file);
    }

    /** Regular files first, then generated files. */
    method ShareOut(regular: seq<string>, gen: seq<string>)
      requires Holds([], [])
      modifies this
      ensures Holds(regular, gen)
    {
      ghost var done: seq<string> := [];
      for i := 0 to |regular|
        invariant done == regular[..i] && Holds(done, [])
      {
        ProcessNext(false, regular[i], done, []);
        done := done + [regular[i]];
      }
      assert done == regular;
      done := [];
      for i := 0 to |gen|
        invariant done == gen[..i] && Holds(regular, done)
      {
        ProcessNext(true, gen[i], regular, done);
        done := done + [gen[i]];
      }
      assert done == gen;
    }
  }

  lemma DataOfOneMore(rules: Rules, files: seq<string>, file: string)
    ensures DataOf(rules, files + [file]) == DataOf(rules, files) + if PlaceOf(rules, file) == Data then [file] else []
  {
    assert (files + [file])[..|files|] == files;
  }

  lemma RegularKeeps(rules: Rules, regular: seq<string>, file: string,
                     sources: Groups, generated: Groups, assets: Groups, dataFiles: seq<string>)
    requires SharedOut(rules, regular, [], sources, generated, assets, dataFiles)
    ensures var place := PlaceOf(rules, file);
      SharedOut(rules, regular + [file], [],
        if place.Source? then AddTo(sources, place.group, file) else sources, generated,
        if place.Asset? then AddTo(assets, place.group, file) else assets,
        if place == Data then dataFiles + [file] else dataFiles)
  {
    GroupedOneMore(rules, regular, sources, false, file);
    GroupedOneMore(rules, regular + [], assets, true, file);
    assert regular + [file] + [] == (regular + []) + [file];
    DataOfOneMore(rules, regular + [], file);
  }

  lemma GeneratedKeeps(rules: Rules, regular: seq<string>, gen: seq<string>, file: string,
                       sources: Groups, generated: Groups, assets: Groups, dataFiles: seq<string>)
    requires SharedOut(rules, regular, gen, sources, generated, assets, dataFiles)
    ensures var place := PlaceOf(rules, file);
      SharedOut(rules, regular, gen + [file], sources,
        if place.Source? then AddTo(generated, place.group, file) else generated,
        if place.Asset? then AddTo(assets, place.group, file) else assets,
        if place == Data then dataFiles + [file] else dataFiles)
  {
    GroupedOneMore(rules, gen, generated, false, file);
    GroupedOneMore(rules, regular + gen, assets, true, file);
    assert regular + (gen + [file]) == (regular + gen) + [file];
    DataOfOneMore(rules, regular + gen, file);
  }

  lemma {:induction false} DataOfIs(rules: Rules, files: seq<string>, file: string)
    ensures file in DataOf(rules, files) <==> file in files && PlaceOf(rules, file) == Data
  {
    if files != [] {
      DataOfIs(rules, files[..|files| - 1], file);
    }
  }

  /** Where a file is found after sharing out. */
  datatype Spot = InSources(group: string) | InGenerated(group: string) | InAssets(group: string) | InData

  ghost predicate FoundAt(spot: Spot, sources: Groups, generated: Groups, assets: Groups, dataFiles: seq<string>, file: string) {
    match spot
    case InSources(g) => InGroup(sources, g, file)
    case InGenerated(g) => InGroup(generated, g, file)
    case InAssets(g) => InGroup(assets, g, file)
    case InData => file in dataFiles
  }

  /** Every file of one of two disjoint lists is in exactly one place. */
  lemma ExactlyOneSpot(rules: Rules, regular: seq<string>, gen: seq<string>, file: string,
                       sources: Groups, generated: Groups, assets: Groups, dataFiles: seq<string>) returns (spot: Spot)
    requires SharedOut(rules, regular, gen, sources, generated, assets, dataFiles)
    requires file in regular + gen && !(file in regular && file in gen)
    ensures forall s :: FoundAt(s, sources, generated, assets, dataFiles, file) <==> s == spot
  {
    DataOfIs(rules, regular + gen, file);
    match PlaceOf(rules, file)
    case Source(g) => spot := if file in regular then InSources(g) else InGenerated(g);
    case Asset(g) => spot := InAssets(g);
    case Data => spot := InData;
  }
}
