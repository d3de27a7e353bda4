/** Loading tsconfig files and everything they extend, each file at most once. */
module TsConfigLoading {
  import opened Wrappers
  import opened Paths
  import opened TsConfigs

  /** The files that can be opened, parsed if possible, and the resolver of "extends" entries. */
  datatype Workspace = Workspace(files: map<File, Result<TsConfigJson>>, resolve: (Path, string) -> seq<File>)

  /** A slot of the parsed map: the sentinel of a file being parsed or failed, or its configuration. */
  datatype Slot = Invalid | Parsed(config: TsConfig)

  predicate Readable(ws: Workspace, f: File) {
    f in ws.files && ws.files[f].Ok?
  }

  /** f names g as a candidate for one of its "extends" entries. */
  ghost predicate Mentions(ws: Workspace, f: File, g: File) {
    Readable(ws, f)
    && exists i :: 0 <= i < |ws.files[f].value.extended| && MentionedAt(ws, f, i, g)
  }

  ghost predicate MentionedAt(ws: Workspace, f: File, i: nat, g: File)
    requires Readable(ws, f) && i < |ws.files[f].value.extended|
  {
    var ext := ws.files[f].value.extended[i];
    ext != "" && g in ws.resolve(Dir(f), ext)
  }

  /** The workspace has no extends cycle: candidates rank lower than the file naming them. */
  ghost predicate Ranked(ws: Workspace, rank: File -> nat) {
    forall f, g :: Mentions(ws, f, g) ==> rank(g) < rank(f)
  }

  /******* Reference: what a configuration is, when there is no cycle *******/

  function FirstReadable(ws: Workspace, candidates: seq<File>): (r: Option<File>)
    ensures r.Some? ==> r.value in candidates && Readable(ws, r.value)
  {
    if candidates == [] then None
    else if Readable(ws, candidates[0]) then Some(candidates[0])
    else FirstReadable(ws, candidates[1..])
  }

  /** The files f inherits from: the first readable candidate of each of its first n entries. */
  ghost function Sources(ws: Workspace, f: File, n: nat): (r: seq<File>)
    requires Readable(ws, f) && n <= |ws.files[f].value.extended|
    ensures forall k :: 0 <= k < |r| ==> Readable(ws, r[k]) && Mentions(ws, f, r[k])
  {
    if n == 0 then []
    else
      var ext := ws.files[f].value.extended[n - 1];
      var first := FirstReadable(ws, ws.resolve(Dir(f), ext));
      assert ext != "" && first.Some? ==> MentionedAt(ws, f, n - 1, first.value);
      Sources(ws, f, n - 1) + if ext != "" && first.Some? then [first.value] else []
  }

  ghost function AllSources(ws: Workspace, f: File): (r: seq<File>)
    requires Readable(ws, f)
    ensures forall k :: 0 <= k < |r| ==> Readable(ws, r[k]) && Mentions(ws, f, r[k])
  {
    Sources(ws, f, |ws.files[f].value.extended|)
  }

  ghost function Resolve(ws: Workspace, rank: File -> nat, f: File): TsConfig
    requires Ranked(ws, rank) && Readable(ws, f)
    decreases rank(f), 1
  {
    Build(Dir(f), ws.files[f].value, Bases(ws, rank, f))
  }

  ghost function Bases(ws: Workspace, rank: File -> nat, f: File): (r: seq<TsConfig>)
    requires Ranked(ws, rank) && Readable(ws, f)
    ensures |r| == |AllSources(ws, f)|
    ensures forall k :: 0 <= k < |r| ==> r[k] == Resolve(ws, rank, AllSources(ws, f)[k])
    decreases rank(f), 0
  {
    var sources := AllSources(ws, f);
    seq(|sources|, k requires 0 <= k < |sources| => Resolve(ws, rank, sources[k]))
  }

  /** A setting as a user thinks of it: a file's own, else that of the last listed base having it. */
  ghost function Inherited<T>(ws: Workspace, rank: File -> nat, f: File, own: File -> Option<T>): Option<T>
    requires Ranked(ws, rank) && Readable(ws, f)
    decreases rank(f), 1
  {
    OrElse(own(f), LastSet(InheritedBySources(ws, rank, f, own)))
  }

  ghost function InheritedBySources<T>(ws: Workspace, rank: File -> nat, f: File, own: File -> Option<T>): (r: seq<Option<T>>)
    requires Ranked(ws, rank) && Readable(ws, f)
    ensures |r| == |AllSources(ws, f)|
    ensures forall k :: 0 <= k < |r| ==> r[k] == Inherited(ws, rank, AllSources(ws, f)[k], own)
    decreases rank(f), 0
  {
    var sources := AllSources(ws, f);
    seq(|sources|, k requires 0 <= k < |sources| => Inherited(ws, rank, sources[k], own))
  }

  ghost predicate InheritsStep<T>(
    ws: Workspace, rank: File -> nat, f: File, get: TsConfig -> Option<T>, own: File -> Option<T>)
    requires Ranked(ws, rank) && Readable(ws, f)
  {
    get(Resolve(ws, rank, f)) == OrElse(own(f), LastSet(Each(Bases(ws, rank, f), get)))
  }

  lemma {:induction false} ResolvedIsInherited<T>(
      ws: Workspace, rank: File -> nat, f: File, get: TsConfig -> Option<T>, own: File -> Option<T>)
    requires Ranked(ws, rank) && Readable(ws, f)
    requires forall g :: Readable(ws, g) ==> InheritsStep(ws, rank, g, get, own)
    ensures get(Resolve(ws, rank, f)) == Inherited(ws, rank, f, own)
    decreases rank(f)
  {
    var sources := AllSources(ws, f);
    assert Each(Bases(ws, rank, f), get) == InheritedBySources(ws, rank, f, own) by {
      forall k | 0 <= k < |sources| ensures get(Resolve(ws, rank, sources[k])) == Inherited(ws, rank, sources[k], own) {
        ResolvedIsInherited(ws, rank, sources[k], get, own);
      }
    }
    assert InheritsStep(ws, rank, f, get, own);
  }

  function OwnSetting(ws: Workspace, f: File, name: OptionName): Option<OptionValue> {
    if Readable(ws, f) && name in ws.files[f].value.options then Some(ws.files[f].value.options[name]) else None
  }

  /** Every option is the file's own, else that of the last listed base whose resolved value is set. */
  lemma OptionsAreInherited(ws: Workspace, rank: File -> nat, f: File, name: OptionName)
    requires Ranked(ws, rank) && Readable(ws, f)
    ensures Setting(Resolve(ws, rank, f), name) == Inherited(ws, rank, f, (g: File) => OwnSetting(ws, g, name))
  {
    var get, own := (c: TsConfig) => Setting(c, name), (g: File) => OwnSetting(ws, g, name);
    forall g | Readable(ws, g) ensures InheritsStep(ws, rank, g, get, own) {
      BuildSetting(Dir(g), ws.files[g].value, Bases(ws, rank, g), name);
    }
    ResolvedIsInherited(ws, rank, f, get, own);
  }

  /** The files named by "extends" are clean paths that do not lie further above the root. */
  ghost predicate Grounded(ws: Workspace) {
    forall f, g :: Mentions(ws, f, g) ==> IsClean(f) && IsClean(g) && Height(Dir(f)) <= Height(Dir(g))
  }

  lemma BasesAreReachable(ws: Workspace, rank: File -> nat, f: File)
    requires Ranked(ws, rank) && Readable(ws, f) && Grounded(ws)
    ensures forall k :: 0 <= k < |Bases(ws, rank, f)| ==> Reachable(Dir(f), Bases(ws, rank, f)[k])
  {
    forall k | 0 <= k < |AllSources(ws, f)| ensures Reachable(Dir(f), Resolve(ws, rank, AllSources(ws, f)[k])) {
      assert Mentions(ws, f, AllSources(ws, f)[k]);
    }
  }

  /** Where a file's own paths are looked up: below its directory, at its baseUrl. */
  ghost function OwnPathsLocation(ws: Workspace, rank: File -> nat, f: File): Option<(Path, Mapping)>
    requires Ranked(ws, rank)
  {
    if Readable(ws, f) && ws.files[f].value.paths.Some?
    then Some((Join(Dir(f), Resolve(ws, rank, f).baseUrl), ws.files[f].value.paths.value)) else None
  }

  /** Inherited paths are looked up where the file they come from looks them up. */
  lemma PathsAreInherited(ws: Workspace, rank: File -> nat, f: File)
    requires Ranked(ws, rank) && Readable(ws, f) && Grounded(ws)
    ensures PathsLocation(Resolve(ws, rank, f))
      == Inherited(ws, rank, f, (g: File) requires Ranked(ws, rank) => OwnPathsLocation(ws, rank, g))
  {
    var own := (g: File) requires Ranked(ws, rank) => OwnPathsLocation(ws, rank, g);
    forall g | Readable(ws, g) ensures InheritsStep(ws, rank, g, PathsLocation, own) {
      BasesAreReachable(ws, rank, g);
      BuildPathsLocation(Dir(g), ws.files[g].value, Bases(ws, rank, g));
    }
    ResolvedIsInherited(ws, rank, f, PathsLocation, own);
  }

  function OwnRootLocations(ws: Workspace, f: File): Option<seq<Path>> {
    if Readable(ws, f) && ws.files[f].value.rootDirs.Some?
    then Some(Each(ws.files[f].value.rootDirs.value, (d: Path) => Join(Dir(f), d))) else None
  }

  /** Inherited rootDirs are the directories meant by the file they come from. */
  lemma RootDirsAreInherited(ws: Workspace, rank: File -> nat, f: File)
    requires Ranked(ws, rank) && Readable(ws, f) && Grounded(ws)
    ensures RootLocations(Resolve(ws, rank, f)) == Inherited(ws, rank, f, (g: File) => OwnRootLocations(ws, g))
  {
    var own := (g: File) => OwnRootLocations(ws, g);
    forall g | Readable(ws, g) ensures InheritsStep(ws, rank, g, RootLocations, own) {
      BasesAreReachable(ws, rank, g);
      BuildRootLocations(Dir(g), ws.files[g].value, Bases(ws, rank, g));
    }
    ResolvedIsInherited(ws, rank, f, RootLocations, own);
  }

  /** A relative "extends" entry, looked up from the file's directory, is never further above the root. */
  lemma RelativeExtendsIsGrounded(dir: Path, ext: Path)
    requires IsClean(dir) && ext != [] && ext[|ext| - 1] != Up
    ensures IsClean(Join(dir, ext)) && Height(dir) <= Height(Dir(Join(dir, ext)))
  {
    var front, last := ext[..|ext| - 1], ext[|ext| - 1];
    assert dir + ext == (dir + front) + [last];
    CleanSnoc(dir + front, last);
    JoinKeepsHeight(dir, front);
    assert Dir(Join(dir, front) + [last]) == Join(dir, front);
  }

  /******* Loading, as a function from the slots before to the slots after *******/

  /** The parsed map, and the files opened so far in order. */
  datatype State = State(parsed: map<File, Slot>, trace: seq<File>)

  /** The slots of before are unchanged in after. */
  ghost predicate Kept(before: map<File, Slot>, after: map<File, Slot>) {
    forall g :: g in before ==> g in after && after[g] == before[g]
  }

  /** The files that have no slot yet. */
  ghost function Pending(ws: Workspace, s: State): set<File> {
    set f | f in ws.files && f !in s.parsed
  }

  ghost function Reserve(ws: Workspace, s: State, f: File): (r: State)
    requires f !in s.parsed
    ensures Kept(s.parsed, r.parsed)
    ensures Readable(ws, f) ==> Pending(ws, r) < Pending(ws, s)
  {
    var r := State(s.parsed[f := Invalid], s.trace + [f]);
    assert Readable(ws, f) ==> f in Pending(ws, s) && f !in Pending(ws, r);
    r
  }

  ghost function LoadFile(ws: Workspace, s: State, f: File): (r: State)
    ensures Kept(s.parsed, r.parsed) && f in r.parsed
    decreases Pending(ws, s), 0, 0
  {
    if f in s.parsed then s
    else
      var reserved := Reserve(ws, s, f);
      if !Readable(ws, f) then reserved
      else
        var own := ws.files[f].value;
        var (after, bases) := LoadEntries(ws, reserved, f, |own.extended|);
        State(after.parsed[f := Parsed(Build(Dir(f), own, bases))], after.trace)
  }

  ghost function LoadEntries(ws: Workspace, s: State, f: File, n: nat): (r: (State, seq<TsConfig>))
    requires Readable(ws, f) && n <= |ws.files[f].value.extended|
    ensures Kept(s.parsed, r.0.parsed)
    decreases Pending(ws, s), 2, n
  {
    if n == 0 then (s, [])
    else
      var (mid, bases) := LoadEntries(ws, s, f, n - 1);
      var ext := ws.files[f].value.extended[n - 1];
      if ext == "" then (mid, bases)
      else
        var (after, base) := LoadCandidates(ws, mid, ws.resolve(Dir(f), ext));
        (after, if base.Some? then bases + [base.value] else bases)
  }

  ghost function LoadCandidates(ws: Workspace, s: State, candidates: seq<File>): (r: (State, Option<TsConfig>))
    ensures Kept(s.parsed, r.0.parsed)
    decreases Pending(ws, s), 1, |candidates|
  {
    if candidates == [] then (s, None)
    else
      var first, rest := candidates[0], candidates[1..];
      if first in s.parsed && s.parsed[first] == Invalid then LoadCandidates(ws, s, rest)
      else
        var after := LoadFile(ws, s, first);
        match after.parsed[first]
        case Parsed(c) => (after, Some(c))
        case Invalid => LoadCandidates(ws, after, rest)
  }

  /******* No file is opened twice *******/

  ghost predicate OpenedOnce(s: State) {
    && (forall i, j :: 0 <= i < j < |s.trace| ==> s.trace[i] != s.trace[j])
    && (forall i :: 0 <= i < |s.trace| ==> s.trace[i] in s.parsed)
  }

  lemma {:induction false} FilesAreOpenedOnce(ws: Workspace, s: State, f: File)
    requires OpenedOnce(s)
    ensures OpenedOnce(LoadFile(ws, s, f))
    decreases Pending(ws, s), 0, 0
  {
    if f !in s.parsed && Readable(ws, f) {
      EntriesAreOpenedOnce(ws, Reserve(ws, s, f), f, |ws.files[f].value.extended|);
    }
  }

  lemma {:induction false} EntriesAreOpenedOnce(ws: Workspace, s: State, f: File, n: nat)
    requires OpenedOnce(s) && Readable(ws, f) && n <= |ws.files[f].value.extended|
    ensures OpenedOnce(LoadEntries(ws, s, f, n).0)
    decreases Pending(ws, s), 2, n
  {
    if n > 0 {
      EntriesAreOpenedOnce(ws, s, f, n - 1);
      var mid := LoadEntries(ws, s, f, n - 1).0;
      CandidatesAreOpenedOnce(ws, mid, ws.resolve(Dir(f), ws.files[f].value.extended[n - 1]));
    }
  }

  lemma {:induction false} CandidatesAreOpenedOnce(ws: Workspace, s: State, candidates: seq<File>)
    requires OpenedOnce(s)
    ensures OpenedOnce(LoadCandidates(ws, s, candidates).0)
    decreases Pending(ws, s), 1, |candidates|
  {
    if candidates != [] {
      FilesAreOpenedOnce(ws, s, candidates[0]);
      CandidatesAreOpenedOnce(ws, s, candidates[1..]);
      CandidatesAreOpenedOnce(ws, LoadFile(ws, s, candidates[0]), candidates[1..]);
    }
  }

  /******* Without cycles, loading gives what each file resolves to *******/

  /** The slot of a file whose parsing is over says what the file resolves to. */
  ghost predicate Settled(ws: Workspace, rank: File -> nat, f: File, slot: Slot)
    requires Ranked(ws, rank)
  {
    slot == if Readable(ws, f) then Parsed(Resolve(ws, rank, f)) else Invalid
  }

  /** The files ranked below n that have a slot are not being parsed. */
  ghost predicate SettledBelow(ws: Workspace, rank: File -> nat, n: nat, s: State)
    requires Ranked(ws, rank)
  {
    forall g :: g in s.parsed && rank(g) < n ==> Settled(ws, rank, g, s.parsed[g])
  }

  ghost predicate NewSettled(ws: Workspace, rank: File -> nat, before: State, after: State)
    requires Ranked(ws, rank)
  {
    forall g :: g in after.parsed && g !in before.parsed ==> Settled(ws, rank, g, after.parsed[g])
  }

  /** Without a cycle, loading a file gives its slot, and every other new slot, the resolved configuration. */
  lemma {:induction false} LoadedFileIsResolved(ws: Workspace, rank: File -> nat, s: State, f: File)
    requires Ranked(ws, rank) && SettledBelow(ws, rank, rank(f), s)
    ensures NewSettled(ws, rank, s, LoadFile(ws, s, f))
    decreases Pending(ws, s), 0, 0
  {
    if f !in s.parsed && Readable(ws, f) {
      var reserved := Reserve(ws, s, f);
      LoadedEntriesAreResolved(ws, rank, reserved, f, |ws.files[f].value.extended|);
      assert LoadEntries(ws, reserved, f, |ws.files[f].value.extended|).1 == Bases(ws, rank, f);
    }
  }

  ghost predicate AreResolved(ws: Workspace, rank: File -> nat, sources: seq<File>, bases: seq<TsConfig>)
    requires Ranked(ws, rank)
  {
    |bases| == |sources|
    && forall k :: 0 <= k < |sources| ==> Readable(ws, sources[k]) && bases[k] == Resolve(ws, rank, sources[k])
  }

  lemma CandidatesRankLower(ws: Workspace, rank: File -> nat, f: File, i: nat)
    requires Ranked(ws, rank) && Readable(ws, f) && i < |ws.files[f].value.extended|
    requires ws.files[f].value.extended[i] != ""
    ensures forall g :: g in ws.resolve(Dir(f), ws.files[f].value.extended[i]) ==> rank(g) < rank(f)
  {
    forall g | g in ws.resolve(Dir(f), ws.files[f].value.extended[i]) ensures rank(g) < rank(f) {
      assert MentionedAt(ws, f, i, g);
      assert Mentions(ws, f, g);
    }
  }

  lemma ResolvedOneMore(ws: Workspace, rank: File -> nat, sources: seq<File>, bases: seq<TsConfig>, g: File)
    requires Ranked(ws, rank) && AreResolved(ws, rank, sources, bases) && Readable(ws, g)
    ensures AreResolved(ws, rank, sources + [g], bases + [Resolve(ws, rank, g)])
  {
  }

  lemma {:induction false} LoadedEntriesAreResolved(ws: Workspace, rank: File -> nat, s: State, f: File, n: nat)
    requires Ranked(ws, rank) && SettledBelow(ws, rank, rank(f), s)
    requires Readable(ws, f) && n <= |ws.files[f].value.extended|
    ensures var (after, bases) := LoadEntries(ws, s, f, n);
      NewSettled(ws, rank, s, after) && AreResolved(ws, rank, Sources(ws, f, n), bases)
    decreases Pending(ws, s), 2, n
  {
    if n > 0 {
      LoadedEntriesAreResolved(ws, rank, s, f, n - 1);
      var mid, ext := LoadEntries(ws, s, f, n - 1).0, ws.files[f].value.extended[n - 1];
      if ext != "" {
        var candidates := ws.resolve(Dir(f), ext);
        CandidatesRankLower(ws, rank, f, n - 1);
        StillSettledBelow(ws, rank, rank(f), s, mid);
        LoadedCandidateIsResolved(ws, rank, rank(f), mid, candidates);
        NewSettledTwice(ws, rank, s, mid, LoadCandidates(ws, mid, candidates).0);
        if FirstReadable(ws, candidates).Some? {
          ResolvedOneMore(ws, rank, Sources(ws, f, n - 1), LoadEntries(ws, s, f, n - 1).1, FirstReadable(ws, candidates).value);
        }
      }
    }
  }

  lemma StillSettledBelow(ws: Workspace, rank: File -> nat, n: nat, before: State, after: State)
    requires Ranked(ws, rank) && SettledBelow(ws, rank, n, before)
    requires Kept(before.parsed, after.parsed) && NewSettled(ws, rank, before, after)
    ensures SettledBelow(ws, rank, n, after)
  {
  }

  lemma NewSettledTwice(ws: Workspace, rank: File -> nat, a: State, b: State, c: State)
    requires Ranked(ws, rank) && Kept(a.parsed, b.parsed) && Kept(b.parsed, c.parsed)
    requires NewSettled(ws, rank, a, b) && NewSettled(ws, rank, b, c)
    ensures NewSettled(ws, rank, a, c)
  {
  }

  lemma {:induction false} LoadedCandidateIsResolved(
      ws: Workspace, rank: File -> nat, n: nat, s: State, candidates: seq<File>)
    requires Ranked(ws, rank) && SettledBelow(ws, rank, n, s)
    requires forall g :: g in candidates ==> rank(g) < n
    ensures var (after, base), first := LoadCandidates(ws, s, candidates), FirstReadable(ws, candidates);
      && NewSettled(ws, rank, s, after)
      && base == if first.Some? then Some(Resolve(ws, rank, first.value)) else None
    decreases Pending(ws, s), 1, |candidates|
  {
    if candidates != [] {
      var first, rest := candidates[0], candidates[1..];
      if first in s.parsed && s.parsed[first] == Invalid {
        LoadedCandidateIsResolved(ws, rank, n, s, rest);
      } else {
        var after := LoadFile(ws, s, first);
        LoadedFileIsResolved(ws, rank, s, first);
        assert Settled(ws, rank, first, after.parsed[first]);
        if !Readable(ws, first) {
          LoadedCandidateIsResolved(ws, rank, n, after, rest);
        }
      }
    }
  }

  /******* On every workspace, what is inherited keeps its location *******/

  /** From f, each file naming the next in an "extends" entry, to o. */
  ghost predicate IsExtendsChain(ws: Workspace, f: File, o: File, chain: seq<File>) {
    && chain != [] && chain[0] == f && chain[|chain| - 1] == o
    && forall i :: 0 <= i < |chain| - 1 ==> Mentions(ws, chain[i], chain[i + 1])
  }

  ghost predicate ExtendsTo(ws: Workspace, f: File, o: File) {
    exists chain :: IsExtendsChain(ws, f, o, chain)
  }

  lemma ExtendsToItself(ws: Workspace, f: File)
    ensures ExtendsTo(ws, f, f)
  {
    assert IsExtendsChain(ws, f, f, [f]);
  }

  lemma ExtendsThrough(ws: Workspace, f: File, g: File, o: File)
    requires Mentions(ws, f, g) && ExtendsTo(ws, g, o)
    ensures ExtendsTo(ws, f, o)
  {
    var chain :| IsExtendsChain(ws, g, o, chain);
    var longer := [f] + chain;
    forall i | 0 <= i < |longer| - 1 ensures Mentions(ws, longer[i], longer[i + 1]) {
      if i > 0 {
        assert Mentions(ws, chain[i - 1], chain[i]);
      }
    }
    assert IsExtendsChain(ws, f, o, longer);
  }

  /** o gives paths itself, f extends it, and they are looked up where o looks them up. */
  ghost predicate PathsComeFrom(ws: Workspace, s: State, f: File, o: File, location: Option<(Path, Mapping)>) {
    && ExtendsTo(ws, f, o)
    && Readable(ws, o) && o in s.parsed && s.parsed[o].Parsed? && ws.files[o].value.paths.Some?
    && location == Some((Join(Dir(o), s.parsed[o].config.baseUrl), ws.files[o].value.paths.value))
  }

  ghost predicate RootsComeFrom(ws: Workspace, f: File, o: File, locations: Option<seq<Path>>) {
    ExtendsTo(ws, f, o) && OwnRootLocations(ws, o) == locations
  }

  /** Explicit paths and rootDirs of f are at the location meant by some file on its chains of extends. */
  ghost predicate Anchored(ws: Workspace, s: State, f: File, c: TsConfig) {
    && (PathsLocation(c).Some? ==> exists o :: PathsComeFrom(ws, s, f, o, PathsLocation(c)))
    && (RootLocations(c).Some? ==> exists o :: RootsComeFrom(ws, f, o, RootLocations(c)))
  }

  ghost predicate AllAnchored(ws: Workspace, s: State) {
    forall g :: g in s.parsed && s.parsed[g].Parsed? ==>
      s.parsed[g].config.dir == Dir(g) && Anchored(ws, s, g, s.parsed[g].config)
  }

  lemma AnchoredThrough(ws: Workspace, s: State, f: File, g: File, c: TsConfig)
    requires Mentions(ws, f, g) && Anchored(ws, s, g, c)
    ensures Anchored(ws, s, f, c)
  {
    if PathsLocation(c).Some? {
      var o :| PathsComeFrom(ws, s, g, o, PathsLocation(c));
      ExtendsThrough(ws, f, g, o);
      assert PathsComeFrom(ws, s, f, o, PathsLocation(c));
    }
    if RootLocations(c).Some? {
      var o :| RootsComeFrom(ws, g, o, RootLocations(c));
      ExtendsThrough(ws, f, g, o);
      assert RootsComeFrom(ws, f, o, RootLocations(c));
    }
  }

  /** Configurations of candidates of f that have been loaded. */
  ghost predicate LoadedFor(ws: Workspace, s: State, f: File, bases: seq<TsConfig>) {
    forall k :: 0 <= k < |bases| ==> Loaded(ws, s, f, bases[k])
  }

  ghost predicate Loaded(ws: Workspace, s: State, f: File, c: TsConfig) {
    exists g :: LoadedAs(ws, s, f, g, c)
  }

  ghost predicate LoadedAs(ws: Workspace, s: State, f: File, g: File, c: TsConfig) {
    Mentions(ws, f, g) && g in s.parsed && s.parsed[g] == Parsed(c)
  }

  lemma AnchoredIsKept(ws: Workspace, before: State, after: State, f: File, c: TsConfig)
    requires Anchored(ws, before, f, c)
    requires forall g :: g in before.parsed && before.parsed[g].Parsed? ==>
      g in after.parsed && after.parsed[g] == before.parsed[g]
    ensures Anchored(ws, after, f, c)
  {
    if PathsLocation(c).Some? {
      var o :| PathsComeFrom(ws, before, f, o, PathsLocation(c));
      assert PathsComeFrom(ws, after, f, o, PathsLocation(c));
    }
  }

  lemma LoadedBasesAreAnchored(ws: Workspace, s: State, f: File, bases: seq<TsConfig>)
    requires Grounded(ws) && AllAnchored(ws, s) && LoadedFor(ws, s, f, bases)
    ensures forall k :: 0 <= k < |bases| ==> Reachable(Dir(f), bases[k]) && Anchored(ws, s, f, bases[k])
  {
    forall k | 0 <= k < |bases| ensures Reachable(Dir(f), bases[k]) && Anchored(ws, s, f, bases[k]) {
      assert Loaded(ws, s, f, bases[k]);
      var g :| LoadedAs(ws, s, f, g, bases[k]);
      AnchoredThrough(ws, s, f, g, bases[k]);
    }
  }

  lemma BuiltPathsAreAnchored(ws: Workspace, after: State, f: File, bases: seq<TsConfig>)
    requires Readable(ws, f) && f in after.parsed && after.parsed[f] == Parsed(Build(Dir(f), ws.files[f].value, bases))
    requires PathsLocation(after.parsed[f].config).Some?
    requires forall k :: 0 <= k < |bases| ==> Reachable(Dir(f), bases[k]) && Anchored(ws, after, f, bases[k])
    ensures exists o :: PathsComeFrom(ws, after, f, o, PathsLocation(after.parsed[f].config))
  {
    var own := ws.files[f].value;
    BuildPathsLocation(Dir(f), own, bases);
    if own.paths.Some? {
      ExtendsToItself(ws, f);
      assert PathsComeFrom(ws, after, f, f, PathsLocation(Build(Dir(f), own, bases)));
    } else {
      var k := LastSetIsLast(Each(bases, PathsLocation));
      assert Anchored(ws, after, f, bases[k]) && PathsLocation(bases[k]).Some?;
    }
  }

  lemma BuiltRootsAreAnchored(ws: Workspace, s: State, f: File, bases: seq<TsConfig>)
    requires Readable(ws, f) && RootLocations(Build(Dir(f), ws.files[f].value, bases)).Some?
    requires forall k :: 0 <= k < |bases| ==> Reachable(Dir(f), bases[k]) && Anchored(ws, s, f, bases[k])
    ensures exists o :: RootsComeFrom(ws, f, o, RootLocations(Build(Dir(f), ws.files[f].value, bases)))
  {
    var own := ws.files[f].value;
    BuildRootLocations(Dir(f), own, bases);
    if own.rootDirs.Some? {
      ExtendsToItself(ws, f);
      assert RootsComeFrom(ws, f, f, RootLocations(Build(Dir(f), own, bases)));
    } else {
      var k := LastSetIsLast(Each(bases, RootLocations));
      assert Anchored(ws, s, f, bases[k]) && RootLocations(bases[k]).Some?;
    }
  }

  lemma BuiltIsAnchored(ws: Workspace, s: State, f: File, bases: seq<TsConfig>)
    requires Readable(ws, f) && f in s.parsed && s.parsed[f] == Invalid
    requires Grounded(ws) && AllAnchored(ws, s) && LoadedFor(ws, s, f, bases)
    ensures var c := Build(Dir(f), ws.files[f].value, bases); Anchored(ws, s.(parsed := s.parsed[f := Parsed(c)]), f, c)
  {
    var c := Build(Dir(f), ws.files[f].value, bases);
    var after := s.(parsed := s.parsed[f := Parsed(c)]);
    LoadedBasesAreAnchored(ws, s, f, bases);
    forall k | 0 <= k < |bases| ensures Anchored(ws, after, f, bases[k]) {
      AnchoredIsKept(ws, s, after, f, bases[k]);
    }
    if PathsLocation(c).Some? {
      BuiltPathsAreAnchored(ws, after, f, bases);
    }
    if RootLocations(c).Some? {
      BuiltRootsAreAnchored(ws, after, f, bases);
    }
  }

  lemma StoringKeepsAnchors(ws: Workspace, s: State, f: File, bases: seq<TsConfig>)
    requires Readable(ws, f) && f in s.parsed && s.parsed[f] == Invalid
    requires Grounded(ws) && AllAnchored(ws, s) && LoadedFor(ws, s, f, bases)
    ensures AllAnchored(ws, s.(parsed := s.parsed[f := Parsed(Build(Dir(f), ws.files[f].value, bases))]))
  {
    var c := Build(Dir(f), ws.files[f].value, bases);
    var after := s.(parsed := s.parsed[f := Parsed(c)]);
    BuiltIsAnchored(ws, s, f, bases);
    forall g | g in after.parsed && after.parsed[g].Parsed? && g != f ensures Anchored(ws, after, g, after.parsed[g].config) {
      AnchoredIsKept(ws, s, after, g, after.parsed[g].config);
    }
  }

  lemma ReservingKeepsAnchors(ws: Workspace, s: State, f: File)
    requires AllAnchored(ws, s) && f !in s.parsed
    ensures AllAnchored(ws, Reserve(ws, s, f))
  {
    forall g | g in s.parsed && s.parsed[g].Parsed? ensures Anchored(ws, Reserve(ws, s, f), g, s.parsed[g].config) {
      AnchoredIsKept(ws, s, Reserve(ws, s, f), g, s.parsed[g].config);
    }
  }

  lemma LoadedForIsKept(ws: Workspace, before: State, after: State, f: File, bases: seq<TsConfig>)
    requires LoadedFor(ws, before, f, bases) && Kept(before.parsed, after.parsed)
    ensures LoadedFor(ws, after, f, bases)
  {
    forall k | 0 <= k < |bases| ensures Loaded(ws, after, f, bases[k]) {
      assert Loaded(ws, before, f, bases[k]);
      var g :| LoadedAs(ws, before, f, g, bases[k]);
      assert LoadedAs(ws, after, f, g, bases[k]);
    }
  }

  /** Through any chain of extends and merges, cyclic or not, explicit paths and rootDirs stay where they were meant. */
  lemma {:induction false} LoadingKeepsLocations(ws: Workspace, s: State, f: File)
    requires Grounded(ws) && AllAnchored(ws, s)
    ensures AllAnchored(ws, LoadFile(ws, s, f))
    decreases Pending(ws, s), 0, 0
  {
    if f !in s.parsed {
      ReservingKeepsAnchors(ws, s, f);
      if Readable(ws, f) {
        var reserved := Reserve(ws, s, f);
        EntriesKeepLocations(ws, reserved, f, |ws.files[f].value.extended|);
        var (after, bases) := LoadEntries(ws, reserved, f, |ws.files[f].value.extended|);
        StoringKeepsAnchors(ws, after, f, bases);
      }
    }
  }

  lemma {:induction false} EntriesKeepLocations(ws: Workspace, s: State, f: File, n: nat)
    requires Grounded(ws) && AllAnchored(ws, s) && Readable(ws, f) && n <= |ws.files[f].value.extended|
    ensures AllAnchored(ws, LoadEntries(ws, s, f, n).0)
    ensures LoadedFor(ws, LoadEntries(ws, s, f, n).0, f, LoadEntries(ws, s, f, n).1)
    decreases Pending(ws, s), 2, n
  {
    if n > 0 {
      EntriesKeepLocations(ws, s, f, n - 1);
      var (mid, bases) := LoadEntries(ws, s, f, n - 1);
      assert AllAnchored(ws, mid) && LoadedFor(ws, mid, f, bases);
      if ws.files[f].value.extended[n - 1] != "" {
        EntryKeepsLocations(ws, mid, f, n - 1, bases);
      }
    }
  }

  lemma {:induction false} EntryKeepsLocations(ws: Workspace, s: State, f: File, i: nat, bases: seq<TsConfig>)
    requires Grounded(ws) && AllAnchored(ws, s) && Readable(ws, f) && i < |ws.files[f].value.extended|
    requires LoadedFor(ws, s, f, bases) && ws.files[f].value.extended[i] != ""
    ensures var (after, base) := LoadCandidates(ws, s, ws.resolve(Dir(f), ws.files[f].value.extended[i]));
      AllAnchored(ws, after) && LoadedFor(ws, after, f, if base.Some? then bases + [base.value] else bases)
    decreases Pending(ws, s), 1, |ws.resolve(Dir(f), ws.files[f].value.extended[i])| + 1
  {
    var candidates := ws.resolve(Dir(f), ws.files[f].value.extended[i]);
    var (after, base) := LoadCandidates(ws, s, candidates);
    var g := CandidatesKeepLocations(ws, s, candidates);
    LoadedForIsKept(ws, s, after, f, bases);
    if base.Some? {
      assert MentionedAt(ws, f, i, g);
      assert LoadedAs(ws, after, f, g, base.value);
    }
  }

  lemma {:induction false} CandidatesKeepLocations(ws: Workspace, s: State, candidates: seq<File>) returns (g: File)
    requires Grounded(ws) && AllAnchored(ws, s)
    ensures AllAnchored(ws, LoadCandidates(ws, s, candidates).0)
    ensures var (after, base) := LoadCandidates(ws, s, candidates);
      base.Some? ==> g in candidates && g in after.parsed && after.parsed[g] == Parsed(base.value)
    decreases Pending(ws, s), 1, |candidates|
  {
    g := [];
    if candidates != [] {
      var first, rest := candidates[0], candidates[1..];
      if first in s.parsed && s.parsed[first] == Invalid {
        g := CandidatesKeepLocations(ws, s, rest);
      } else {
        LoadingKeepsLocations(ws, s, first);
        var after := LoadFile(ws, s, first);
        if after.parsed[first].Parsed? {
          g := first;
        } else {
          g := CandidatesKeepLocations(ws, after, rest);
        }
      }
    }
  }

  /******* Whole sessions *******/

  /** The slots after any files have been asked for, one after the other. */
  ghost function LoadAll(ws: Workspace, files: seq<File>): State {
    if files == [] then State(map[], []) else LoadFile(ws, LoadAll(ws, files[..|files| - 1]), files[|files| - 1])
  }

  /** However often and in whatever order files are asked for, each is opened at most once. */
  lemma {:induction false} SessionOpensOnce(ws: Workspace, files: seq<File>)
    ensures OpenedOnce(LoadAll(ws, files))
    ensures forall i :: 0 <= i < |files| ==> files[i] in LoadAll(ws, files).parsed
  {
    if files != [] {
      var front := files[..|files| - 1];
      SessionOpensOnce(ws, front);
      FilesAreOpenedOnce(ws, LoadAll(ws, front), files[|files| - 1]);
      forall i | 0 <= i < |files| ensures files[i] in LoadAll(ws, files).parsed {
        assert i < |files| - 1 ==> front[i] == files[i];
      }
    }
  }

  /** Without cycles, whatever is asked for is answered with what the file resolves to. */
  lemma {:induction false} SessionIsResolved(ws: Workspace, rank: File -> nat, files: seq<File>)
    requires Ranked(ws, rank)
    ensures forall g :: g in LoadAll(ws, files).parsed ==> Settled(ws, rank, g, LoadAll(ws, files).parsed[g])
  {
    if files != [] {
      SessionIsResolved(ws, rank, files[..|files| - 1]);
      LoadedFileIsResolved(ws, rank, LoadAll(ws, files[..|files| - 1]), files[|files| - 1]);
    }
  }

  /** With cycles or without, every loaded configuration's explicit paths and rootDirs are where they were meant. */
  lemma {:induction false} SessionKeepsLocations(ws: Workspace, files: seq<File>)
    requires Grounded(ws)
    ensures AllAnchored(ws, LoadAll(ws, files))
  {
    if files != [] {
      SessionKeepsLocations(ws, files[..|files| - 1]);
      LoadingKeepsLocations(ws, LoadAll(ws, files[..|files| - 1]), files[|files| - 1]);
    }
  }

  /******* The loader *******/

  class TsConfigLoader {
    const ws: Workspace
    var parsed: map<File, Slot>
    /** The files opened so far, in order. */
    ghost var trace: seq<File>

    ghost function Now(): State
      reads this
    {
      State(parsed, trace)
    }

    constructor (ws: Workspace)
      ensures this.ws == ws && Now() == State(map[], [])
    {
      this.ws := ws;
      parsed := map[];
      trace := [];
    }

    /** parseTsConfigJSONFile: an existing sentinel is no configuration, and no error. */
    method ParseFile(f: File) returns (r: Result<Option<TsConfig>>)
      modifies this`parsed, this`trace
      ensures Now() == LoadFile(ws, old(Now()), f)
      ensures f in parsed && (parsed[f].Parsed? ==> r == Ok(Some(parsed[f].config)))
      ensures parsed[f].Invalid? ==> r == if f in old(parsed) then Ok(None) else Err
      decreases Pending(ws, Now()), 0, 0
    {
      if f in parsed {
        return Ok(if parsed[f] == Invalid then None else Some(parsed[f].config));
      }
      ghost var reserved := Reserve(ws, Now(), f);
      parsed := parsed[f := Invalid];
      trace := trace + [f];
      if !(f in ws.files && ws.files[f].Ok?) {
        return Err;
      }
      var config := ParseConfig(f);
      parsed := parsed[f := Parsed(config)];
      r := Ok(Some(config));
    }

    /** The bases merged from the left. */
    static method MergeFromLeft(dir: Path, bases: seq<TsConfig>) returns (merged: TsConfig)
      requires bases != []
      ensures merged == MergeAll(dir, bases)
    {
      merged := bases[0];
      for k := 1 to |bases|
        invariant merged == MergeAll(dir, bases[..k])
      {
        assert bases[..k + 1][..k] == bases[..k];
        merged := MergeBases(merged, bases[k], dir);
      }
      assert bases[..|bases|] == bases;
    }

    /** parseTsConfigJSON: collects the bases, merges them from the left, and applies the file's own values. */
    method ParseConfig(f: File) returns (config: TsConfig)
      requires Readable(ws, f)
      modifies this`parsed, this`trace
      ensures var own := ws.files[f].value;
        var (after, bases) := LoadEntries(ws, old(Now()), f, |own.extended|);
        Now() == after && config == Build(Dir(f), own, bases)
      decreases Pending(ws, Now()), 3, 0
    {
      var own := ws.files[f].value;
      var bases: seq<TsConfig> := [];
      for i := 0 to |own.extended|
        invariant (Now(), bases) == LoadEntries(ws, old(Now()), f, i)
      {
        if own.extended[i] != "" {
          var base := LoadBase(ws.resolve(Dir(f), own.extended[i]));
          if base.Some? {
            bases := bases + [base.value];
          }
        }
      }
      var base: Option<TsConfig> := None;
      if |bases| > 0 {
        var merged := MergeFromLeft(Dir(f), bases);
        base := Some(merged);
      }
      config := Extend(Dir(f), own, base);
    }

    /** The first candidate of an "extends" entry that loads; a candidate holding the sentinel is skipped. */
    method LoadBase(candidates: seq<File>) returns (base: Option<TsConfig>)
      modifies this`parsed, this`trace
      ensures (Now(), base) == LoadCandidates(ws, old(Now()), candidates)
      decreases Pending(ws, Now()), 1, 0
    {
      for j := 0 to |candidates|
        invariant LoadCandidates(ws, old(Now()), candidates) == LoadCandidates(ws, Now(), candidates[j..])
        invariant Kept(old(parsed), parsed)
      {
        if candidates[j] in parsed && parsed[candidates[j]] == Invalid {
          continue;
        }
        var r := ParseFile(candidates[j]);
        if r.Ok? && r.value.Some? {
          return r.value;
        }
      }
      base := None;
    }
  }
}
