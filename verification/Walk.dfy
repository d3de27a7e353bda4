/**
 The parallel directory collector (common/walk.go): one goroutine per directory, a WaitGroup that
 goroutines raise before they spawn others, a bounded result channel, a closer and the collecting
 caller, as a transition system.
 */
module Walk {
  import opened Bags
  import opened Sorting
  import opened Strings

  /** Directory info as the walker reports it; a directory whose info cannot be read counts as empty. */
  datatype Dir = Dir(hasBuild: bool, files: seq<string>, subdirs: seq<Sub>)
  datatype Sub = Sub(name: string, dir: Dir)

  function JoinRel(rel: string, name: string): string {
    if rel != "" then rel + "/" + name else name
  }

  function OwnFiles(rel: string, files: seq<string>): seq<string> {
    if files == [] then [] else [rel + "/" + files[0]] + OwnFiles(rel, files[1..])
  }

  /** The plain recursion: the files below a directory, stopping at directories with a BUILD file. */
  function FilesUnder(rel: string, d: Dir): seq<string>
    decreases d, 1
  {
    if d.hasBuild then [] else OwnFiles(rel, d.files) + FilesInSubs(rel, d.subdirs)
  }

  function FilesInSubs(rel: string, subs: seq<Sub>): seq<string>
    decreases subs, 0
  {
    if subs == [] then []
    else FilesUnder(JoinRel(rel, subs[0].name), subs[0].dir) + FilesInSubs(rel, subs[1..])
  }

  /** A goroutine of collectSourceRegularSubFiles; raised says that wg.Add ran for the next spawn. */
  datatype Goroutine =
    | Visiting(rel: string, d: Dir)
    | Sending(rel: string, d: Dir, n: nat)
    | Spawning(rel: string, d: Dir, n: nat, raised: bool)
    | Leaving
    | Exited
  {
    ghost predicate Ok() {
      && (Sending? ==> n <= |d.files|)
      && (Spawning? ==> n <= |d.subdirs| && (raised ==> n < |d.subdirs|))
    }
  }

  datatype Caller = Starting(n: nat, raised: bool) | Collecting | Returned

  datatype State = State(
    caller: Caller, gs: seq<Goroutine>, wg: int,
    ch: seq<string>, closes: nat, panicked: bool, received: seq<string>)

  function Init(): State {
    State(Starting(0, false), [], 0, [], 0, false, [])
  }

  datatype Action =
    | CallerAdd | CallerGo | CallerStarted | Receive | Drain | Close
    | Visit(i: nat) | Send(i: nat) | SentAll(i: nat) | Add(i: nat) | Go(i: nat) | Spawned(i: nat) | Leave(i: nat)

  /** The goroutine goes on as g. */
  function With(s: State, i: nat, g: Goroutine): State
    requires i < |s.gs|
  {
    s.(gs := s.gs[i := g])
  }

  ghost predicate CallerStep(root: Dir, s: State, s': State, a: Action) {
    match a
    case CallerAdd =>
      s.caller.Starting? && !s.caller.raised && s.caller.n < |root.subdirs| &&
      s' == s.(wg := s.wg + 1, caller := Starting(s.caller.n, true))
    case CallerGo =>
      s.caller.Starting? && s.caller.raised && s.caller.n < |root.subdirs| &&
      var sub := root.subdirs[s.caller.n];
      s' == s.(gs := s.gs + [Visiting(JoinRel("", sub.name), sub.dir)], caller := Starting(s.caller.n + 1, false))
    case CallerStarted =>
      s.caller.Starting? && !s.caller.raised && s.caller.n == |root.subdirs| && s' == s.(caller := Collecting)
    case Close =>
      s.caller.Collecting? && s.closes == 0 && s.wg == 0 && s' == s.(closes := 1)
    case Receive =>
      s.caller.Collecting? && s.ch != [] && s' == s.(ch := s.ch[1..], received := s.received + [s.ch[0]])
    case Drain =>
      s.caller.Collecting? && s.ch == [] && s.closes > 0 && s' == s.(caller := Returned)
    case _ => false
  }

  ghost predicate GoroutineStep(root: Dir, s: State, s': State, a: Action)
    requires !a.CallerAdd? && !a.CallerGo? && !a.CallerStarted? && !a.Close? && !a.Receive? && !a.Drain?
  {
    a.i < |s.gs| &&
    var g := s.gs[a.i];
    match a
    case Visit(i) =>
      g.Visiting? && s' == With(s, i, if g.d.hasBuild then Leaving else Sending(g.rel, g.d, 0))
    case Send(i) =>
      g.Sending? && g.n < |g.d.files| &&
      if s.closes > 0 then
        s' == s.(panicked := true)
      else
        |s.ch| < |root.subdirs| &&
        s' == With(s, i, Sending(g.rel, g.d, g.n + 1)).(ch := s.ch + [g.rel + "/" + g.d.files[g.n]])
    case SentAll(i) =>
      g.Sending? && g.n == |g.d.files| && s' == With(s, i, Spawning(g.rel, g.d, 0, false))
    case Add(i) =>
      g.Spawning? && !g.raised && g.n < |g.d.subdirs| &&
      s' == With(s, i, g.(raised := true)).(wg := s.wg + 1)
    case Go(i) =>
      g.Spawning? && g.raised && g.n < |g.d.subdirs| &&
      var sub := g.d.subdirs[g.n];
      s' == s.(gs := s.gs[i := Spawning(g.rel, g.d, g.n + 1, false)] + [Visiting(JoinRel(g.rel, sub.name), sub.dir)])
    case Spawned(i) =>
      g.Spawning? && !g.raised && g.n == |g.d.subdirs| && s' == With(s, i, Leaving)
    case Leave(i) =>
      g.Leaving? && s' == With(s, i, Exited).(wg := s.wg - 1)
  }

  predicate IsCallerAction(a: Action) {
    a.CallerAdd? || a.CallerGo? || a.CallerStarted? || a.Close? || a.Receive? || a.Drain?
  }

  ghost predicate Step(root: Dir, s: State, s': State, a: Action) {
    if IsCallerAction(a) then CallerStep(root, s, s', a) else GoroutineStep(root, s, s', a)
  }

  ghost predicate Next(root: Dir, s: State, s': State) {
    exists a :: Step(root, s, s', a)
  }

  ghost predicate IsRun(root: Dir, run: seq<State>) {
    && |run| > 0 && run[0] == Init()
    && forall i :: 0 < i < |run| ==> Next(root, run[i - 1], run[i])
  }

  /******* The WaitGroup counts live goroutines, plus one for each announced spawn *******/

  ghost function Counted(): Goroutine -> nat {
    (g: Goroutine) => if g.Exited? then 0 else if g.Spawning? && g.raised then 2 else 1
  }

  ghost predicate Orderly(root: Dir, s: State) {
    && (forall i :: 0 <= i < |s.gs| ==> s.gs[i].Ok())
    && (s.caller.Starting? ==> s.caller.n <= |root.subdirs| && (s.caller.raised ==> s.caller.n < |root.subdirs|))
    && s.wg == Sum(Counted(), s.gs) + (if s.caller.Starting? && s.caller.raised then 1 else 0)
    && s.closes <= 1 && (s.closes == 1 ==> !s.caller.Starting? && s.wg == 0)
    && (s.caller.Returned? ==> s.closes == 1 && s.ch == [])
    && !s.panicked
  }

  lemma CallerKeepsOrder(root: Dir, s: State, s': State, a: Action)
    requires Orderly(root, s) && IsCallerAction(a) && CallerStep(root, s, s', a)
    ensures Orderly(root, s')
  {
    if a.CallerGo? {
      SumAppend(Counted(), s.gs, s'.gs[|s.gs|]);
    }
  }

  lemma GoKeepsOrder(root: Dir, s: State, s': State, i: nat)
    requires Orderly(root, s) && Step(root, s, s', Go(i))
    ensures Orderly(root, s')
  {
    SumAtLeast(Counted(), s.gs, i);
    SumUpdate(Counted(), s.gs, i, s'.gs[i]);
    assert s'.gs[..|s.gs|] == s.gs[i := s'.gs[i]];
    SumAppend(Counted(), s.gs[i := s'.gs[i]], s'.gs[|s.gs|]);
  }

  lemma GoroutineKeepsOrder(root: Dir, s: State, s': State, a: Action)
    requires Orderly(root, s) && !IsCallerAction(a) && !a.Go? && GoroutineStep(root, s, s', a)
    ensures Orderly(root, s')
  {
    SumAtLeast(Counted(), s.gs, a.i);
    SumUpdate(Counted(), s.gs, a.i, s'.gs[a.i]);
  }

  lemma StepKeepsOrder(root: Dir, s: State, s': State, a: Action)
    requires Orderly(root, s) && Step(root, s, s', a)
    ensures Orderly(root, s')
  {
    if IsCallerAction(a) {
      CallerKeepsOrder(root, s, s', a);
    } else if a.Go? {
      GoKeepsOrder(root, s, s', a.i);
    } else {
      GoroutineKeepsOrder(root, s, s', a);
    }
  }

  /******* Conservation *******/

  /** What a goroutine, and those it will spawn, still owe the result channel. */
  ghost function Owed(): Goroutine -> multiset<string> {
    (g: Goroutine) =>
      match g
      case Visiting(rel, d) => multiset(FilesUnder(rel, d))
      case Sending(rel, d, n) =>
        if n <= |d.files| then multiset(OwnFiles(rel, d.files[n..])) + multiset(FilesInSubs(rel, d.subdirs)) else multiset{}
      case Spawning(rel, d, n, _) =>
        if n <= |d.subdirs| then multiset(FilesInSubs(rel, d.subdirs[n..])) else multiset{}
      case _ => multiset{}
  }

  ghost function CallerOwed(root: Dir, c: Caller): multiset<string> {
    if c.Starting? && c.n <= |root.subdirs| then multiset(FilesInSubs("", root.subdirs[c.n..])) else multiset{}
  }

  ghost predicate Conserved(root: Dir, s: State) {
    multiset(s.received) + multiset(s.ch) + CallerOwed(root, s.caller) + Bag(Owed(), s.gs)
    == multiset(FilesInSubs("", root.subdirs))
  }

  lemma NextSubFiles(rel: string, subs: seq<Sub>, n: nat)
    requires n < |subs|
    ensures multiset(FilesInSubs(rel, subs[n..])) ==
      multiset(FilesInSubs(rel, subs[n + 1..])) + multiset(FilesUnder(JoinRel(rel, subs[n].name), subs[n].dir))
  {
    assert subs[n..][1..] == subs[n + 1..];
  }

  lemma VisitingOwes(rel: string, d: Dir)
    ensures Owed()(if d.hasBuild then Leaving else Sending(rel, d, 0)) == Owed()(Visiting(rel, d))
  {
    assert d.files[0..] == d.files;
  }

  lemma SendingOwes(rel: string, d: Dir, n: nat)
    requires n <= |d.files|
    ensures n < |d.files| ==>
      Owed()(Sending(rel, d, n)) == Owed()(Sending(rel, d, n + 1)) + multiset{rel + "/" + d.files[n]}
    ensures n == |d.files| ==> Owed()(Spawning(rel, d, 0, false)) == Owed()(Sending(rel, d, n))
  {
    if n < |d.files| {
      assert d.files[n..][1..] == d.files[n + 1..];
    } else {
      assert d.subdirs[0..] == d.subdirs && d.files[n..] == [];
    }
  }

  lemma SpawningOwes(rel: string, d: Dir, n: nat)
    requires n <= |d.subdirs|
    ensures n < |d.subdirs| ==>
      var child := Visiting(JoinRel(rel, d.subdirs[n].name), d.subdirs[n].dir);
      Owed()(Spawning(rel, d, n, true)) == Owed()(Spawning(rel, d, n + 1, false)) + Owed()(child)
    ensures n == |d.subdirs| ==> Owed()(Spawning(rel, d, n, false)) == Owed()(Leaving)
  {
    if n < |d.subdirs| {
      NextSubFiles(rel, d.subdirs, n);
    } else {
      assert d.subdirs[n..] == [];
    }
  }

  /** A move after which the goroutine owes as much as before, and nothing else counts. */
  lemma SameDebt(root: Dir, s: State, s': State, i: nat, g: Goroutine)
    requires Conserved(root, s) && i < |s.gs| && Owed()(g) == Owed()(s.gs[i])
    requires s' == With(s, i, g).(wg := s'.wg)
    ensures Conserved(root, s')
  {
    BagGain(Owed(), s.gs, i, g, multiset{});
    assert Bag(Owed(), s'.gs) == Bag(Owed(), s.gs);
  }

  lemma Shift<T>(a: multiset<T>, b: multiset<T>, b': multiset<T>, c: multiset<T>, d: multiset<T>, d': multiset<T>, x: multiset<T>)
    requires b' == b + x && d == d' + x
    ensures a + b' + c + d' == a + b + c + d
  {}

  /** A goroutine that has sent a file owes that much less. */
  lemma SentDebt(s: State, i: nat)
    requires i < |s.gs| && s.gs[i].Sending? && s.gs[i].n < |s.gs[i].d.files|
    ensures var g := s.gs[i];
      Bag(Owed(), s.gs) == Bag(Owed(), s.gs[i := Sending(g.rel, g.d, g.n + 1)]) + multiset{g.rel + "/" + g.d.files[g.n]}
  {
    var g := s.gs[i];
    SendingOwes(g.rel, g.d, g.n);
    BagLoss(Owed(), s.gs, i, Sending(g.rel, g.d, g.n + 1), multiset{g.rel + "/" + g.d.files[g.n]});
  }

  lemma SendMovesFile(root: Dir, s: State, s': State, i: nat)
    requires Step(root, s, s', Send(i)) && !s'.panicked
    ensures i < |s.gs| && s.gs[i].Sending? && s.gs[i].n < |s.gs[i].d.files|
    ensures var g := s.gs[i];
      && s'.gs == s.gs[i := Sending(g.rel, g.d, g.n + 1)] && s'.received == s.received && s'.caller == s.caller
      && multiset(s'.ch) == multiset(s.ch) + multiset{g.rel + "/" + g.d.files[g.n]}
  {
  }

  lemma SendConserves(root: Dir, s: State, s': State, i: nat)
    requires Conserved(root, s) && Step(root, s, s', Send(i)) && !s'.panicked
    ensures Conserved(root, s')
  {
    SendMovesFile(root, s, s', i);
    SentDebt(s, i);
    Shift(multiset(s.received), multiset(s.ch), multiset(s'.ch), CallerOwed(root, s.caller),
      Bag(Owed(), s.gs), Bag(Owed(), s'.gs), multiset{s.gs[i].rel + "/" + s.gs[i].d.files[s.gs[i].n]});
  }

  /** A goroutine hands the files below its next subdirectory to the goroutine it spawns. */
  lemma GoSplitsDebt(s: State, i: nat, g: Goroutine, child: Goroutine)
    requires i < |s.gs| && s.gs[i].Spawning? && s.gs[i].raised && s.gs[i].n < |s.gs[i].d.subdirs|
    requires g == Spawning(s.gs[i].rel, s.gs[i].d, s.gs[i].n + 1, false)
    requires var sub := s.gs[i].d.subdirs[s.gs[i].n]; child == Visiting(JoinRel(s.gs[i].rel, sub.name), sub.dir)
    ensures Bag(Owed(), s.gs[i := g] + [child]) == Bag(Owed(), s.gs)
  {
    SpawningOwes(g.rel, g.d, s.gs[i].n);
    BagSplit(Owed(), s.gs, i, g, child);
  }

  lemma GoConserves(root: Dir, s: State, s': State, i: nat)
    requires Conserved(root, s) && Step(root, s, s', Go(i))
    ensures Conserved(root, s')
  {
    GoSplitsDebt(s, i, s'.gs[i], s'.gs[|s.gs|]);
  }

  lemma CallerGoMovesDebt(root: Dir, s: State, s': State)
    requires Step(root, s, s', CallerGo)
    ensures s'.received == s.received && s'.ch == s.ch
    ensures exists x :: (&& Bag(Owed(), s'.gs) == Bag(Owed(), s.gs) + x
                         && CallerOwed(root, s.caller) == CallerOwed(root, s'.caller) + x)
  {
    var child := s'.gs[|s.gs|];
    assert Bag(Owed(), s'.gs) == Bag(Owed(), s.gs) + Owed()(child) by {
      BagAppend(Owed(), s.gs, child);
    }
    assert CallerOwed(root, s.caller) == CallerOwed(root, s'.caller) + Owed()(child) by {
      NextSubFiles("", root.subdirs, s.caller.n);
    }
  }

  lemma MovedDebt(rest: multiset<string>, owed: multiset<string>, debts: multiset<string>,
                  owed': multiset<string>, debts': multiset<string>, x: multiset<string>)
    requires debts' == debts + x && owed == owed' + x
    ensures rest + owed' + debts' == rest + owed + debts
  {
  }

  lemma CallerGoConserves(root: Dir, s: State, s': State)
    requires Conserved(root, s) && Step(root, s, s', CallerGo)
    ensures Conserved(root, s')
  {
    CallerGoMovesDebt(root, s, s');
    var x :| Bag(Owed(), s'.gs) == Bag(Owed(), s.gs) + x && CallerOwed(root, s.caller) == CallerOwed(root, s'.caller) + x;
    MovedDebt(multiset(s.received) + multiset(s.ch), CallerOwed(root, s.caller), Bag(Owed(), s.gs),
      CallerOwed(root, s'.caller), Bag(Owed(), s'.gs), x);
  }

  lemma HandedOver<T>(received: seq<T>, ch: seq<T>)
    requires ch != []
    ensures multiset(received + [ch[0]]) + multiset(ch[1..]) == multiset(received) + multiset(ch)
  {
    assert ch == [ch[0]] + ch[1..];
  }

  lemma ReceiveConserves(root: Dir, s: State, s': State)
    requires Conserved(root, s) && Step(root, s, s', Receive)
    ensures Conserved(root, s')
  {
    HandedOver(s.received, s.ch);
  }

  lemma CallerConserves(root: Dir, s: State, s': State, a: Action)
    requires Conserved(root, s) && IsCallerAction(a) && !a.CallerGo? && !a.Receive? && CallerStep(root, s, s', a)
    ensures Conserved(root, s')
  {
    if a.CallerStarted? {
      assert root.subdirs[s.caller.n..] == [];
    }
    assert CallerOwed(root, s'.caller) == CallerOwed(root, s.caller);
  }

  lemma StepConserves(root: Dir, s: State, s': State, a: Action)
    requires Conserved(root, s) && Step(root, s, s', a) && !s'.panicked
    ensures Conserved(root, s')
  {
    match a
    case CallerGo => CallerGoConserves(root, s, s');
    case Receive => ReceiveConserves(root, s, s');
    case Visit(i) =>
      VisitingOwes(s.gs[i].rel, s.gs[i].d);
      SameDebt(root, s, s', i, s'.gs[i]);
    case Send(i) => SendConserves(root, s, s', i);
    case SentAll(i) =>
      SendingOwes(s.gs[i].rel, s.gs[i].d, s.gs[i].n);
      SameDebt(root, s, s', i, s'.gs[i]);
    case Add(i) => SameDebt(root, s, s', i, s'.gs[i]);
    case Go(i) => GoConserves(root, s, s', i);
    case Spawned(i) =>
      SpawningOwes(s.gs[i].rel, s.gs[i].d, s.gs[i].n);
      SameDebt(root, s, s', i, Leaving);
    case Leave(i) => SameDebt(root, s, s', i, Exited);
    case _ => CallerConserves(root, s, s', a);
  }

  ghost predicate Inv(root: Dir, s: State) {
    Orderly(root, s) && Conserved(root, s)
  }

  lemma {:induction false} RunKeepsInv(root: Dir, run: seq<State>, i: nat)
    requires IsRun(root, run) && i < |run|
    ensures Inv(root, run[i])
  {
    if i == 0 {
      assert root.subdirs[0..] == root.subdirs;
    } else {
      RunKeepsInv(root, run, i - 1);
      assert Next(root, run[i - 1], run[i]);
      var a :| Step(root, run[i - 1], run[i], a);
      StepKeepsOrder(root, run[i - 1], run[i], a);
      StepConserves(root, run[i - 1], run[i], a);
    }
  }

  /******* Termination *******/

  /** The steps a directory costs: its own goroutine's, two per file, and those of its subdirectories. */
  function StepsFor(d: Dir): nat
    decreases d, 1
  {
    if d.hasBuild then 2 else 4 + 2 * |d.files| + StepsForSubs(d.subdirs)
  }

  function StepsForSubs(subs: seq<Sub>): nat
    decreases subs, 0
  {
    if subs == [] then 0 else 2 + StepsFor(subs[0].dir) + StepsForSubs(subs[1..])
  }

  function SpawningSteps(subs: seq<Sub>, n: nat, raised: bool): nat {
    if n > |subs| then 0
    else StepsForSubs(subs[n..]) + if raised && n < |subs| then 1 else 2
  }

  ghost function StepsLeft(): Goroutine -> nat {
    (g: Goroutine) =>
      match g
      case Visiting(_, d) => StepsFor(d)
      case Sending(_, d, n) => if n <= |d.files| then 2 * (|d.files| - n) + 3 + StepsForSubs(d.subdirs) else 0
      case Spawning(_, d, n, raised) => SpawningSteps(d.subdirs, n, raised)
      case Leaving => 1
      case Exited => 0
  }

  ghost function CallerSteps(root: Dir, c: Caller): nat {
    match c
    case Starting(n, raised) => SpawningSteps(root.subdirs, n, raised)
    case Collecting => 1
    case Returned => 0
  }

  ghost function Measure(root: Dir, s: State): nat
    requires Orderly(root, s)
  {
    Sum(StepsLeft(), s.gs) + CallerSteps(root, s.caller) + |s.ch| + (1 - s.closes)
  }

  lemma SpawningStepsDecrease(subs: seq<Sub>, n: nat)
    requires n < |subs|
    ensures SpawningSteps(subs, n, true) == SpawningSteps(subs, n, false) - 1
    ensures SpawningSteps(subs, n + 1, false) + StepsFor(subs[n].dir) == SpawningSteps(subs, n, true) - 1
  {
    assert subs[n..][1..] == subs[n + 1..];
  }

  lemma GoDecreasesMeasure(root: Dir, s: State, s': State, i: nat)
    requires Orderly(root, s) && Step(root, s, s', Go(i))
    ensures Orderly(root, s') && Measure(root, s') == Measure(root, s) - 1
  {
    StepKeepsOrder(root, s, s', Go(i));
    var moved := s.gs[i := s'.gs[i]];
    SpawningStepsDecrease(s.gs[i].d.subdirs, s.gs[i].n);
    SumUpdate(StepsLeft(), s.gs, i, s'.gs[i]);
    assert s'.gs == moved + [s'.gs[|s.gs|]];
    SumAppend(StepsLeft(), moved, s'.gs[|s.gs|]);
  }

  lemma GoroutineDecreasesMeasure(root: Dir, s: State, s': State, a: Action)
    requires Orderly(root, s) && !IsCallerAction(a) && !a.Go? && GoroutineStep(root, s, s', a)
    ensures Orderly(root, s') && Measure(root, s') == Measure(root, s) - 1
  {
    StepKeepsOrder(root, s, s', a);
    var g := s.gs[a.i];
    SumUpdate(StepsLeft(), s.gs, a.i, s'.gs[a.i]);
    if a.Add? {
      SpawningStepsDecrease(g.d.subdirs, g.n);
    } else if a.SentAll? {
      assert g.d.subdirs[0..] == g.d.subdirs;
    } else if a.Spawned? {
      assert g.d.subdirs[g.n..] == [];
    }
  }

  lemma CallerDecreasesMeasure(root: Dir, s: State, s': State, a: Action)
    requires Orderly(root, s) && IsCallerAction(a) && CallerStep(root, s, s', a)
    ensures Orderly(root, s') && Measure(root, s') == Measure(root, s) - 1
  {
    StepKeepsOrder(root, s, s', a);
    if a.CallerAdd? {
      SpawningStepsDecrease(root.subdirs, s.caller.n);
    } else if a.CallerGo? {
      SpawningStepsDecrease(root.subdirs, s.caller.n);
      SumAppend(StepsLeft(), s.gs, s'.gs[|s.gs|]);
    } else if a.CallerStarted? {
      assert root.subdirs[s.caller.n..] == [];
    }
  }

  lemma {:induction false} RunsAreBounded(root: Dir, run: seq<State>, i: nat)
    requires IsRun(root, run) && i < |run|
    ensures Orderly(root, run[0]) && Orderly(root, run[i]) && Measure(root, run[i]) + i == Measure(root, run[0])
  {
    RunKeepsInv(root, run, 0);
    if i > 0 {
      RunsAreBounded(root, run, i - 1);
      assert Next(root, run[i - 1], run[i]);
      var a :| Step(root, run[i - 1], run[i], a);
      if IsCallerAction(a) {
        CallerDecreasesMeasure(root, run[i - 1], run[i], a);
      } else if a.Go? {
        GoDecreasesMeasure(root, run[i - 1], run[i], a.i);
      } else {
        GoroutineDecreasesMeasure(root, run[i - 1], run[i], a);
      }
    }
  }

  /******* Deadlock freedom *******/

  lemma LiveGoroutineCanMove(root: Dir, s: State, i: nat)
    requires Orderly(root, s) && root.subdirs != [] && s.ch == [] && i < |s.gs| && !s.gs[i].Exited?
    ensures exists s' :: Next(root, s, s')
  {
    SumAtLeast(Counted(), s.gs, i);
    var g := s.gs[i];
    var a, s';
    match g {
      case Visiting(rel, d) =>
        a, s' := Visit(i), With(s, i, if d.hasBuild then Leaving else Sending(rel, d, 0));
      case Sending(rel, d, n) =>
        if n < |d.files| {
          a, s' := Send(i), With(s, i, Sending(rel, d, n + 1)).(ch := [rel + "/" + d.files[n]]);
        } else {
          a, s' := SentAll(i), With(s, i, Spawning(rel, d, 0, false));
        }
      case Spawning(rel, d, n, raised) =>
        if raised {
          var sub := d.subdirs[n];
          a, s' := Go(i), s.(gs := s.gs[i := Spawning(rel, d, n + 1, false)] + [Visiting(JoinRel(rel, sub.name), sub.dir)]);
        } else if n < |d.subdirs| {
          a, s' := Add(i), With(s, i, g.(raised := true)).(wg := s.wg + 1);
        } else {
          a, s' := Spawned(i), With(s, i, Leaving);
        }
      case Leaving =>
        a, s' := Leave(i), With(s, i, Exited).(wg := s.wg - 1);
    }
    assert Step(root, s, s', a);
    assert Next(root, s, s');
  }

  lemma SomeStepIsEnabled(root: Dir, s: State)
    requires Orderly(root, s) && root.subdirs != [] && !s.caller.Returned?
    ensures exists s' :: Next(root, s, s')
  {
    SumZero(Counted(), s.gs);
    if i :| 0 <= i < |s.gs| && !s.gs[i].Exited? && s.ch == [] {
      LiveGoroutineCanMove(root, s, i);
    } else {
      var a, s';
      match s.caller {
        case Starting(n, raised) =>
          if raised {
            var sub := root.subdirs[n];
            a, s' := CallerGo, s.(gs := s.gs + [Visiting(JoinRel("", sub.name), sub.dir)], caller := Starting(n + 1, false));
          } else if n < |root.subdirs| {
            a, s' := CallerAdd, s.(wg := s.wg + 1, caller := Starting(n, true));
          } else {
            a, s' := CallerStarted, s.(caller := Collecting);
          }
        case Collecting =>
          if s.ch != [] {
            a, s' := Receive, s.(ch := s.ch[1..], received := s.received + [s.ch[0]]);
          } else if s.closes == 0 {
            a, s' := Close, s.(closes := 1);
          } else {
            a, s' := Drain, s.(caller := Returned);
          }
      }
      assert Step(root, s, s', a);
      assert Next(root, s, s');
    }
  }

  /******* Main result *******/

  /** What GetSourceRegularFiles returns for a root with subdirectories, on any schedule. */
  function AllFiles(root: Dir): seq<string> {
    Sort(Leq, root.files + FilesInSubs("", root.subdirs))
  }

  lemma ReturnedMeansAllExited(root: Dir, s: State)
    requires Orderly(root, s) && s.caller.Returned?
    ensures forall i :: 0 <= i < |s.gs| ==> s.gs[i] == Exited
  {
    SumZero(Counted(), s.gs);
    assert forall i :: 0 <= i < |s.gs| ==> Counted()(s.gs[i]) == 0;
  }

  lemma ReturnedMeansStopped(root: Dir, s: State)
    requires Orderly(root, s) && s.caller.Returned?
    ensures !exists s' :: Next(root, s, s')
  {
    ReturnedMeansAllExited(root, s);
    forall a, s' ensures !Step(root, s, s', a) {
      if !IsCallerAction(a) && a.i < |s.gs| {
        assert s.gs[a.i] == Exited;
      }
    }
  }

  lemma ReturnedMeansAllReceived(root: Dir, s: State)
    requires Inv(root, s) && s.caller.Returned?
    ensures multiset(s.received) == multiset(FilesInSubs("", root.subdirs))
  {
    ReturnedMeansAllExited(root, s);
    BagEmpty(Owed(), s.gs);
    assert multiset(s.ch) == multiset{} && CallerOwed(root, s.caller) == multiset{};
  }

  /** The sorted list depends on the received files only as a bag. */
  lemma SortForgetsOrder(files: seq<string>, received: seq<string>, expected: seq<string>)
    requires multiset(received) == multiset(expected)
    ensures Sort(Leq, files + received) == Sort(Leq, files + expected)
  {
    LeqIsTotalOrder();
    SortSorts(Leq, files + received);
    SortSorts(Leq, files + expected);
    SortedPermutationIsUnique(Leq, Sort(Leq, files + received), Sort(Leq, files + expected));
  }

  /**
   No schedule exceeds a fixed number of steps or sends on the closed channel, and every schedule
   that cannot go on has closed it once and returns the sorted files of the plain recursion.
   */
  lemma EveryScheduleCollectsAllFiles(root: Dir, run: seq<State>)
    requires IsRun(root, run) && root.subdirs != []
    ensures |run| <= StepsForSubs(root.subdirs) + 4
    ensures var last := run[|run| - 1];
      && !last.panicked && last.closes <= 1
      && ((!exists s' :: Next(root, last, s')) <==> last.caller.Returned?)
      && (last.caller.Returned? ==> last.closes == 1 && Sort(Leq, root.files + last.received) == AllFiles(root))
  {
    var last := run[|run| - 1];
    RunKeepsInv(root, run, |run| - 1);
    RunsAreBounded(root, run, |run| - 1);
    assert root.subdirs[0..] == root.subdirs;
    if last.caller.Returned? {
      ReturnedMeansStopped(root, last);
      ReturnedMeansAllReceived(root, last);
      SortForgetsOrder(root.files, last.received, FilesInSubs("", root.subdirs));
    } else {
      SomeStepIsEnabled(root, last);
    }
  }

  /******* The collecting caller *******/

  method SortInPlace(a: array<string>)
    modifies a
    ensures a[..] == Sort(Leq, old(a[..]))
  {
    var sorted := Sort(Leq, a[..]);
    LeqIsTotalOrder();
    SortSorts(Leq, a[..]);
    assert |sorted| == |multiset(sorted)| == a.Length;
    forall i | 0 <= i < a.Length {
      a[i] := sorted[i];
    }
  }

  /** The last part of GetSourceRegularFiles: without subdirectories the cached slice itself is returned. */
  method GatherFiles(cached: array<string>, hasSubdirs: bool, received: seq<string>) returns (files: array<string>)
    ensures cached[..] == old(cached[..])
    ensures !hasSubdirs ==> files == cached
    ensures hasSubdirs ==> fresh(files) && files[..] == Sort(Leq, cached[..] + received)
  {
    if !hasSubdirs {
      return cached;
    }
    var clone := cached[..];
    for i := 0 to |received|
      invariant clone == cached[..] + received[..i]
    {
      clone := clone + [received[i]];
    }
    assert received[..|received|] == received;
    files := new string[|clone|](i requires 0 <= i < |clone| => clone[i]);
    assert files[..] == clone;
    SortInPlace(files);
  }
}
