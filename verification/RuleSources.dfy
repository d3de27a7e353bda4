/**
 The files of each target group's rule: those placed in the group, those its BUILD file lists, and
 the data files that its sources are the first to import.
 */
module RuleSources {
  import opened Wrappers
  import opened DataFiles
  import opened DataClaims

  /** What the existing rule says about its srcs: entries to keep beside those found, or the whole list. */
  datatype Listed = Kept(files: seq<string>) | Pinned(files: seq<string>)

  datatype Group = Group(name: string, listed: Listed)

  /** A package with the imports that parsing the sources of a group gives. */
  datatype Package = Package(
    rules: Rules,
    regular: seq<string>,
    gen: seq<string>,
    groups: seq<Group>,
    dir: string,
    accepts: Policy,
    importsOf: (string, set<string>) -> seq<Import>
  )

  ghost predicate IsPackage(c: Package) {
    && RealFiles(c.regular + c.gen, "")
    && (forall g, h :: 0 <= g < h < |c.groups| ==> c.groups[g].name != c.groups[h].name)
    && forall name, srcs :: Collected(c.dir, c.importsOf(name, srcs))
  }

  /** The sources that are parsed: without any there is no rule. */
  function SourcesOf(c: Package, group: Group): set<string> {
    match group.listed
    case Pinned(files) => set f | f in c.regular && f in files
    case Kept(files) => set f | f in c.regular && (PlaceOf(c.rules, f) == Source(group.name) || f in files)
  }

  function DataFilesOf(c: Package): seq<string> {
    DataOf(c.rules, c.regular + c.gen)
  }

  /** The BUILD file gives the rule this file. */
  predicate Lists(c: Package, g: nat, f: string)
    requires g < |c.groups|
  {
    f in c.regular && f in c.groups[g].listed.files
  }

  /** The globs of the group give the rule this file, as a source unless the list is pinned, or as an asset. */
  predicate Finds(c: Package, g: nat, f: string)
    requires g < |c.groups|
  {
    f in c.regular + c.gen && match PlaceOf(c.rules, f)
    case Source(name) => name == c.groups[g].name && c.groups[g].listed.Kept?
    case Asset(name) => name == c.groups[g].name
    case Data => false
  }

  /** There is a file to parse: a regular one that is listed, or found as a source. */
  predicate Parses(c: Package, g: nat, f: string)
    requires g < |c.groups|
  {
    f in c.regular && (Lists(c, g, f) || (GoesToSources(c.rules, f) && Finds(c, g, f)))
  }

  ghost predicate HasRule(c: Package, g: nat)
    requires g < |c.groups|
  {
    exists f :: Parses(c, g, f)
  }

  /** The imports of each group, those of the files it parses. */
  ghost function AllImports(c: Package): seq<seq<Import>> {
    seq(|c.groups|, g requires 0 <= g < |c.groups| =>
      if HasRule(c, g) then c.importsOf(c.groups[g].name, set f | f in c.regular && Parses(c, g, f)) else [])
  }

  lemma SourcesAreParsed(c: Package, g: nat)
    requires g < |c.groups|
    ensures SourcesOf(c, c.groups[g]) == set f | f in c.regular && Parses(c, g, f)
    ensures HasRule(c, g) <==> SourcesOf(c, c.groups[g]) != {}
  {
    forall f ensures f in SourcesOf(c, c.groups[g]) <==> Parses(c, g, f) {
      PlaceIs(c.rules, f);
    }
    if HasRule(c, g) {
      var f :| Parses(c, g, f);
      assert f in SourcesOf(c, c.groups[g]);
    }
  }

  /** The sources of the rule are the first to import this data file. */
  ghost predicate Imports(c: Package, g: nat, f: string)
    requires g < |c.groups|
  {
    f in DataFilesOf(c) && FirstWants(c.dir, c.accepts, AllImports(c), g, f)
  }

  ghost predicate Owns(c: Package, g: nat, f: string)
    requires g < |c.groups|
  {
    HasRule(c, g) && (Lists(c, g, f) || Finds(c, g, f) || Imports(c, g, f))
  }

  /******* Creating the rules *******/

  function Members(groups: Groups, name: string): set<string> {
    if name in groups then groups[name] else {}
  }

  /** The sources of a rule: those found for its group, and those its BUILD file keeps. */
  method KeepSources(srcs: set<string>, gens: set<string>, kept: seq<string>, walkable: seq<string>) returns (all: set<string>)
    ensures all == srcs + set f | f in kept && f !in gens && f in walkable
  {
    all := srcs;
    for i := 0 to |kept|
      invariant all == srcs + set f | f in kept[..i] && f !in gens && f in walkable
    {
      assert kept[..i + 1] == kept[..i] + [kept[i]];
      if kept[i] in all || kept[i] in gens || kept[i] !in walkable {
        continue;
      }
      all := all + {kept[i]};
    }
    assert kept[..|kept|] == kept;
  }

  /** The walkable files of a pinned list. */
  method PinnedSources(listed: seq<string>, walkable: seq<string>) returns (all: set<string>)
    ensures all == set f | f in walkable && f in listed
  {
    all := {};
    for i := 0 to |listed|
      invariant all == set f | f in walkable && f in listed[..i]
    {
      assert listed[..i + 1] == listed[..i] + [listed[i]];
      if listed[i] in walkable {
        all := all + {listed[i]};
      }
    }
    assert listed[..|listed|] == listed;
  }

  /** The regular and the generated sources of a group, before any import is looked at. */
  method FindSources(c: Package, group: Group, sources: Groups, generated: Groups)
    returns (srcs: set<string>, gens: set<string>)
    requires RealFiles(c.regular + c.gen, "")
    requires Grouped(c.rules, c.regular, sources, false) && Grouped(c.rules, c.gen, generated, false)
    ensures srcs == SourcesOf(c, group)
    ensures gens == if group.listed.Pinned? then {} else set f | f in c.gen && PlaceOf(c.rules, f) == Source(group.name)
  {
    if group.listed.Pinned? {
      srcs := PinnedSources(group.listed.files, c.regular);
      return srcs, {};
    }
    gens := Members(generated, group.name);
    forall f ensures f in gens <==> InGroup(generated, group.name, f) {
    }
    srcs := KeepSources(Members(sources, group.name), gens, group.listed.files, c.regular);
    forall f ensures f in Members(sources, group.name) <==> InGroup(sources, group.name, f) {
    }
    forall f | f in c.regular ensures f !in c.gen {
      ListsAreDisjoint(c.regular, c.gen, f);
    }
  }

  lemma ListsAreDisjoint(regular: seq<string>, gen: seq<string>, f: string)
    requires RealFiles(regular + gen, "") && f in regular
    ensures f !in gen
  {
    var i :| 0 <= i < |regular| && regular[i] == f;
    forall j | 0 <= j < |gen| ensures gen[j] != f {
      assert (regular + gen)[i] == f && (regular + gen)[|regular| + j] == gen[j];
    }
  }

  lemma {:induction false} DataIsReal(rules: Rules, files: seq<string>)
    requires RealFiles(files, "")
    ensures RealFiles(DataOf(rules, files), "")
  {
    if files != [] {
      var front, last := files[..|files| - 1], files[|files| - 1];
      var data := DataOf(rules, front);
      DataIsReal(rules, front);
      forall i | 0 <= i < |data| ensures data[i] != last && data[i] != "" {
        DataOfIs(rules, front, data[i]);
        var k :| 0 <= k < |front| && front[k] == data[i];
        assert files[k] == data[i];
      }
      assert DataOf(rules, files) == data + if PlaceOf(rules, last) == Data then [last] else [];
    }
  }

  /** The rule of one group, made after those of the groups before it; without sources there is none. */
  method CreateRule(c: Package, g: nat, sources: Groups, generated: Groups, assets: Groups, dataFiles: array<string>,
                    ghost claims: seq<set<string>>)
    returns (owned: Option<set<string>>, claimed: set<string>)
    requires IsPackage(c) && g < |c.groups| && |claims| == g && |DataFilesOf(c)| == dataFiles.Length
    requires Grouped(c.rules, c.regular, sources, false) && Grouped(c.rules, c.gen, generated, false)
    requires Grouped(c.rules, c.regular + c.gen, assets, true)
    requires FirstWins(c.dir, c.accepts, AllImports(c), DataFilesOf(c), claims)
    requires dataFiles[..] == Padded(Minus(DataFilesOf(c), Union(claims)), dataFiles.Length, "")
    modifies dataFiles
    ensures OwnsExactly(c, g, owned)
    ensures FirstWins(c.dir, c.accepts, AllImports(c), DataFilesOf(c), claims + [claimed])
    ensures dataFiles[..] == Padded(Minus(DataFilesOf(c), Union(claims + [claimed])), dataFiles.Length, "")
  {
    var srcs, gens := FindSources(c, c.groups[g], sources, generated);
    claimed := {};
    SourcesAreParsed(c, g);
    if srcs == {} {
      NothingWanted(c, Minus(DataFilesOf(c), Union(claims)));
      FirstWinsOneMore(c.dir, c.accepts, AllImports(c), DataFilesOf(c), claims, claimed);
      assert Union(claims) + {} == Union(claims);
      return None, claimed;
    }
    DataIsReal(c.rules, c.regular + c.gen);
    var imports := c.importsOf(c.groups[g].name, srcs);
    claimed := ClaimNext(c.dir, c.accepts, imports, dataFiles, DataFilesOf(c), Union(claims));
    FirstWinsOneMore(c.dir, c.accepts, AllImports(c), DataFilesOf(c), claims, claimed);
    RuleIsOwned(c, g, gens, assets, claims + [claimed]);
    owned := Some(srcs + gens + Members(assets, c.groups[g].name) + claimed);
  }

  /** The rules in the order of the groups, which share the slice of data files. */
  method CreateRules(c: Package, sources: Groups, generated: Groups, assets: Groups, dataFiles: array<string>)
    returns (owned: seq<Option<set<string>>>, ghost claims: seq<set<string>>)
    requires IsPackage(c) && SharedOut(c.rules, c.regular, c.gen, sources, generated, assets, dataFiles[..])
    modifies dataFiles
    ensures |claims| == |c.groups| && OwnedUpTo(c, |c.groups|, owned)
    ensures FirstWins(c.dir, c.accepts, AllImports(c), DataFilesOf(c), claims)
    ensures dataFiles[..] == Padded(Minus(DataFilesOf(c), Union(claims)), dataFiles.Length, "")
  {
    owned, claims := [], [];
    MinusNothing(DataFilesOf(c));
    for g := 0 to |c.groups|
      invariant |claims| == g && OwnedUpTo(c, g, owned)
      invariant FirstWins(c.dir, c.accepts, AllImports(c), DataFilesOf(c), claims)
      invariant dataFiles[..] == Padded(Minus(DataFilesOf(c), Union(claims)), dataFiles.Length, "")
    {
      var rule, claimed := CreateRule(c, g, sources, generated, assets, dataFiles, claims);
      owned, claims := owned + [rule], claims + [claimed];
    }
  }

  ghost predicate OwnsExactly(c: Package, g: nat, owned: Option<set<string>>)
    requires g < |c.groups|
  {
    if owned.None? then !HasRule(c, g) else HasRule(c, g) && forall f :: f in owned.value <==> Owns(c, g, f)
  }

  ghost predicate OwnedUpTo(c: Package, n: nat, owned: seq<Option<set<string>>>) {
    n <= |c.groups| && |owned| == n && forall g :: 0 <= g < n ==> OwnsExactly(c, g, owned[g])
  }

  lemma NothingWanted(c: Package, list: seq<string>)
    ensures Claims(c.dir, c.accepts, [], list, {})
  {
  }

  lemma RuleIsOwned(c: Package, g: nat, gens: set<string>, assets: Groups, claims: seq<set<string>>)
    requires g < |c.groups| && |claims| == g + 1 && HasRule(c, g)
    requires FirstWins(c.dir, c.accepts, AllImports(c), DataFilesOf(c), claims)
    requires Grouped(c.rules, c.regular + c.gen, assets, true)
    requires gens == if c.groups[g].listed.Pinned? then {}
                     else set f | f in c.gen && PlaceOf(c.rules, f) == Source(c.groups[g].name)
    ensures var group := c.groups[g];
      OwnsExactly(c, g, Some(SourcesOf(c, group) + gens + Members(assets, group.name) + claims[g]))
  {
    SourcesAreParsed(c, g);
    forall f
      ensures f in SourcesOf(c, c.groups[g]) + gens + Members(assets, c.groups[g].name) + claims[g] <==> Owns(c, g, f)
    {
      assert ClaimsRightly(c.dir, c.accepts, AllImports(c), DataFilesOf(c), claims, g, f);
      assert f in Members(assets, c.groups[g].name) <==> InGroup(assets, c.groups[g].name, f);
    }
  }

  /******* One owner *******/

  ghost predicate OneOwner(c: Package, f: string) {
    forall g, h :: 0 <= g < |c.groups| && 0 <= h < |c.groups| && Owns(c, g, f) && Owns(c, h, f) ==> g == h
  }

  /** If a BUILD file gives a rule this file, no other rule is given it, finds it, or is the first to import it. */
  ghost predicate ListedByOwner(c: Package, f: string) {
    forall g, h :: 0 <= g < |c.groups| && 0 <= h < |c.groups| && g != h && Lists(c, g, f) ==>
      !Lists(c, h, f) && !(HasRule(c, h) && Finds(c, h, f)) && !Imports(c, h, f)
  }

  lemma ListsHasRule(c: Package, g: nat, f: string)
    requires g < |c.groups| && Lists(c, g, f)
    ensures HasRule(c, g)
  {
    assert Parses(c, g, f);
  }

  lemma ImportsHasRule(c: Package, g: nat, f: string)
    requires g < |c.groups| && Imports(c, g, f)
    ensures HasRule(c, g)
  {
    assert AllImports(c)[g] != [];
    SourcesAreParsed(c, g);
  }

  /** Found and imported files have one owner. */
  lemma FoundOnce(c: Package, g: nat, h: nat, f: string)
    requires IsPackage(c) && g < |c.groups| && h < |c.groups|
    requires Finds(c, g, f) || Imports(c, g, f)
    requires Finds(c, h, f) || Imports(c, h, f)
    ensures g == h
  {
    DataOfIs(c.rules, c.regular + c.gen, f);
    if PlaceOf(c.rules, f) == Data {
      FirstIsOne(c.dir, c.accepts, AllImports(c), g, h, f);
    }
  }

  lemma FirstIsOne(pkg: string, accepts: Policy, groups: seq<seq<Import>>, g: nat, h: nat, f: string)
    requires g < |groups| && h < |groups| && FirstWants(pkg, accepts, groups, g, f) && FirstWants(pkg, accepts, groups, h, f)
    ensures g == h
  {
    WantedBefore(pkg, accepts, groups, g, h, f);
    WantedBefore(pkg, accepts, groups, h, g, f);
  }

  /** A file belongs to one rule at most exactly when the lists of the BUILD file leave it to one. */
  lemma OneGroupUnlessKept(c: Package, f: string)
    requires IsPackage(c)
    ensures OneOwner(c, f) <==> ListedByOwner(c, f)
  {
    if ListedByOwner(c, f) {
      forall g, h | 0 <= g < |c.groups| && 0 <= h < |c.groups| && Owns(c, g, f) && Owns(c, h, f) ensures g == h {
        if !Lists(c, g, f) && !Lists(c, h, f) {
          FoundOnce(c, g, h, f);
        }
      }
    } else {
      var g, h :| 0 <= g < |c.groups| && 0 <= h < |c.groups| && g != h && Lists(c, g, f)
        && (Lists(c, h, f) || (HasRule(c, h) && Finds(c, h, f)) || Imports(c, h, f));
      ListsHasRule(c, g, f);
      if Lists(c, h, f) {
        ListsHasRule(c, h, f);
      } else if Imports(c, h, f) {
        ImportsHasRule(c, h, f);
      }
      assert Owns(c, g, f) && Owns(c, h, f);
    }
  }

  ghost predicate InRule(owned: seq<Option<set<string>>>, g: nat, f: string) {
    g < |owned| && owned[g].Some? && f in owned[g].value
  }

  ghost predicate SharedByNone(owned: seq<Option<set<string>>>, f: string) {
    forall g, h :: InRule(owned, g, f) && InRule(owned, h, f) ==> g == h
  }

  /** So the rules made share no file exactly when the lists of the BUILD file leave every file to one. */
  lemma RulesShareNothing(c: Package, owned: seq<Option<set<string>>>)
    requires IsPackage(c) && OwnedUpTo(c, |c.groups|, owned)
    ensures (forall f :: SharedByNone(owned, f)) <==> forall f :: ListedByOwner(c, f)
  {
    forall f ensures SharedByNone(owned, f) <==> ListedByOwner(c, f) {
      OneGroupUnlessKept(c, f);
      RuleHoldsOwned(c, owned, f);
    }
  }

  lemma RuleHoldsOwned(c: Package, owned: seq<Option<set<string>>>, f: string)
    requires OwnedUpTo(c, |c.groups|, owned)
    ensures SharedByNone(owned, f) <==> OneOwner(c, f)
  {
    forall g | 0 <= g < |c.groups| ensures InRule(owned, g, f) <==> Owns(c, g, f) {
      assert OwnsExactly(c, g, owned[g]);
    }
    if !OneOwner(c, f) {
      var g, h :| 0 <= g < |c.groups| && 0 <= h < |c.groups| && Owns(c, g, f) && Owns(c, h, f) && g != h;
      assert InRule(owned, g, f) && InRule(owned, h, f);
    }
  }

  /** The library keeps "data.json" in its srcs, and the tests import it. */
  function SharedData(): Package {
    Package(
      Rules(
        f => true,
        (f: string) => if f == "a.ts" then Some("lib") else if f == "a.test.ts" then Some("tests") else None,
        f => None),
      ["a.ts", "a.test.ts", "data.json"],
      [],
      [Group("lib", Kept(["data.json"])), Group("tests", Kept([]))],
      "",
      (f, i) => true,
      (name: string, srcs: set<string>) => if name == "tests" then [Import("data.json", "import")] else []
    )
  }

  lemma SharedDataIsImported()
    ensures var c := SharedData(); IsPackage(c) && Imports(c, 1, "data.json")
  {
    var c, f := SharedData(), "data.json";
    assert c.regular[0] == "a.ts" && c.regular[1] == "a.test.ts" && c.regular[2] == f;
    DataOfIs(c.rules, c.regular + c.gen, f);
    assert Parses(c, 1, "a.test.ts");
    assert AllImports(c)[0] == [] && AllImports(c)[1] == [Import(f, "import")];
    assert IsPathOf(AllImports(c)[1][0].path, "", f);
  }

  /** Then the file belongs to both rules. */
  lemma SharedDataHasTwoOwners()
    ensures var c := SharedData(); IsPackage(c) && !OneOwner(c, "data.json")
  {
    var c, f := SharedData(), "data.json";
    SharedDataIsImported();
    assert c.regular[2] == f && Lists(c, 0, f);
    OneGroupUnlessKept(c, f);
  }
}
