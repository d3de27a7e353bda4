/**
 Parallelize (common/worker.go): a feeder, up to MAX_WORKER_COUNT workers, a closer and the
 consumer, over two bounded channels and a WaitGroup, as a transition system.  Each channel
 operation, WaitGroup operation and call of process is one atomic step.
 */
module Worker {
  import opened Bags

  type Value(==, !new)
  type Output(==, !new)

  const MAX_WORKER_COUNT := 12

  datatype Setting = Setting(values: seq<Value>, process: Value -> Output)
  {
    /** No more workers than necessary, and never none. */
    function WorkerCount(): (n: nat)
      ensures 1 <= n <= MAX_WORKER_COUNT && n <= 1 + |values| / 2
      ensures n == MAX_WORKER_COUNT || n == 1 + |values| / 2
    {
      var wanted := 1 + |values| / 2;
      if wanted < MAX_WORKER_COUNT then wanted else MAX_WORKER_COUNT
    }
  }

  datatype Goroutine = Receiving | Processing(v: Value) | Sending(r: Output) | Exited

  /** closes counts how often the results channel has been closed; panicked records a send after that. */
  datatype State = State(
    fed: nat, inputClosed: bool, input: seq<Value>,
    workers: seq<Goroutine>, wg: int,
    output: seq<Output>, closes: nat, panicked: bool,
    received: seq<Output>, drained: bool)

  function Init(g: Setting): State {
    var n := g.WorkerCount();
    State(0, false, [], seq(n, i => Receiving), n, [], 0, false, [], false)
  }

  datatype Action = Feed | CloseInput | Take(i: nat) | Process(i: nat) | Emit(i: nat) | Exit(i: nat)
                  | CloseOutput | Receive | Drain

  ghost predicate Step(g: Setting, s: State, s': State, a: Action) {
    match a
    case Feed =>
      s.fed < |g.values| && |s.input| < g.WorkerCount() &&
      s' == s.(fed := s.fed + 1, input := s.input + [g.values[s.fed]])
    case CloseInput =>
      s.fed == |g.values| && !s.inputClosed && s' == s.(inputClosed := true)
    case Take(i) =>
      i < |s.workers| && s.workers[i].Receiving? && s.input != [] &&
      s' == s.(input := s.input[1..], workers := s.workers[i := Processing(s.input[0])])
    case Process(i) =>
      i < |s.workers| && s.workers[i].Processing? &&
      s' == s.(workers := s.workers[i := Sending(g.process(s.workers[i].v))])
    case Emit(i) =>
      i < |s.workers| && s.workers[i].Sending? &&
      if s.closes > 0 then
        s' == s.(panicked := true)
      else
        |s.output| < g.WorkerCount() &&
        s' == s.(output := s.output + [s.workers[i].r], workers := s.workers[i := Receiving])
    case Exit(i) =>
      i < |s.workers| && s.workers[i].Receiving? && s.input == [] && s.inputClosed &&
      s' == s.(workers := s.workers[i := Exited], wg := s.wg - 1)
    case CloseOutput =>
      s.closes == 0 && s.wg == 0 && s' == s.(closes := s.closes + 1)
    case Receive =>
      s.output != [] && s' == s.(output := s.output[1..], received := s.received + [s.output[0]])
    case Drain =>
      s.closes > 0 && s.output == [] && !s.drained && s' == s.(drained := true)
  }

  ghost predicate Next(g: Setting, s: State, s': State) {
    exists a :: Step(g, s, s', a)
  }

  ghost predicate IsRun(g: Setting, run: seq<State>) {
    && |run| > 0 && run[0] == Init(g)
    && forall i :: 0 < i < |run| ==> Next(g, run[i - 1], run[i])
  }

  /******* Conservation *******/

  function Results(g: Setting, vs: seq<Value>): (rs: seq<Output>)
    ensures |rs| == |vs|
  {
    seq(|vs|, i requires 0 <= i < |vs| => g.process(vs[i]))
  }

  /** What a worker still owes the results channel. */
  ghost function Owed(g: Setting): Goroutine -> multiset<Output> {
    (w: Goroutine) => match w
         case Processing(v) => multiset{g.process(v)}
         case Sending(r) => multiset{r}
         case _ => multiset{}
  }

  ghost function Live(): Goroutine -> nat {
    (w: Goroutine) => if w.Exited? then 0 else 1
  }

  ghost function Unfed(g: Setting, s: State): seq<Value>
    requires s.fed <= |g.values|
  {
    s.input + g.values[s.fed..]
  }

  /** The results of the inputs that no worker has taken yet. */
  ghost function Untaken(g: Setting, s: State): multiset<Output>
    requires s.fed <= |g.values|
  {
    multiset(Results(g, Unfed(g, s)))
  }

  ghost predicate Conserved(g: Setting, s: State)
    requires s.fed <= |g.values|
  {
    multiset(s.received) + multiset(s.output) + Bag(Owed(g), s.workers) + Untaken(g, s)
    == multiset(Results(g, g.values))
  }

  /** The control state: who is live, what is closed, and that nothing has panicked. */
  ghost predicate Orderly(g: Setting, s: State) {
    && |s.workers| == g.WorkerCount() && s.wg == Sum(Live(), s.workers)
    && s.fed <= |g.values| && (s.inputClosed ==> s.fed == |g.values|)
    && (forall i :: 0 <= i < |s.workers| && s.workers[i].Exited? ==> s.inputClosed && s.input == [])
    && s.closes <= 1 && (s.closes == 1 ==> s.wg == 0)
    && (s.drained ==> s.closes == 1 && s.output == [])
    && !s.panicked
  }

  ghost predicate Inv(g: Setting, s: State) {
    Orderly(g, s) && Conserved(g, s)
  }

  lemma InitIsInv(g: Setting)
    ensures Inv(g, Init(g))
  {
    var s := Init(g);
    BagEmpty(Owed(g), s.workers);
    SumOfOnes(s.workers);
    assert Unfed(g, s) == g.values;
  }

  lemma {:induction false} SumOfOnes(ws: seq<Goroutine>)
    requires forall i :: 0 <= i < |ws| ==> ws[i] == Receiving
    ensures Sum(Live(), ws) == |ws|
    decreases |ws|
  {
    if ws != [] {
      SumOfOnes(ws[..|ws| - 1]);
    }
  }

  lemma TakeShrinksUntaken(g: Setting, s: State, s': State)
    requires s.fed <= |g.values| && s'.fed == s.fed && s.input != [] && s'.input == s.input[1..]
    ensures Untaken(g, s) == Untaken(g, s') + multiset{g.process(s.input[0])}
  {
    var v, rest := s.input[0], Unfed(g, s');
    assert Unfed(g, s) == [v] + rest;
    assert Results(g, [v] + rest) == [g.process(v)] + Results(g, rest);
  }

  lemma TakeConserves(g: Setting, s: State, s': State, i: nat)
    requires s.fed <= |g.values| && Conserved(g, s) && Step(g, s, s', Take(i))
    ensures Conserved(g, s')
  {
    var x := multiset{g.process(s.input[0])};
    TakeShrinksUntaken(g, s, s');
    BagGain(Owed(g), s.workers, i, Processing(s.input[0]), x);
    Transfer(multiset(s.received) + multiset(s.output), Bag(Owed(g), s.workers), Bag(Owed(g), s'.workers),
      Untaken(g, s), Untaken(g, s'), x);
  }

  lemma EmitConserves(g: Setting, s: State, s': State, i: nat)
    requires s.fed <= |g.values| && Conserved(g, s) && Step(g, s, s', Emit(i)) && !s'.panicked
    ensures Conserved(g, s')
  {
    BagLoss(Owed(g), s.workers, i, Receiving, multiset{s.workers[i].r});
    assert Unfed(g, s') == Unfed(g, s);
    Transfer(multiset(s.received), multiset(s.output), multiset(s'.output),
      Bag(Owed(g), s.workers), Bag(Owed(g), s'.workers), multiset{s.workers[i].r});
  }

  lemma ReceiveConserves(g: Setting, s: State, s': State)
    requires s.fed <= |g.values| && Conserved(g, s) && Step(g, s, s', Receive)
    ensures Conserved(g, s')
  {
    assert s.output == [s.output[0]] + s'.output;
    assert Unfed(g, s') == Unfed(g, s);
    assert multiset(s'.received) + multiset(s'.output) == multiset(s.received) + multiset(s.output);
  }

  lemma ProcessConserves(g: Setting, s: State, s': State, i: nat)
    requires s.fed <= |g.values| && Conserved(g, s) && Step(g, s, s', Process(i))
    ensures Conserved(g, s')
  {
    BagGain(Owed(g), s.workers, i, s'.workers[i], multiset{});
    assert Unfed(g, s') == Unfed(g, s) && Bag(Owed(g), s'.workers) == Bag(Owed(g), s.workers);
  }

  lemma ExitConserves(g: Setting, s: State, s': State, i: nat)
    requires s.fed <= |g.values| && Conserved(g, s) && Step(g, s, s', Exit(i))
    ensures Conserved(g, s')
  {
    BagGain(Owed(g), s.workers, i, Exited, multiset{});
    assert Unfed(g, s') == Unfed(g, s) && Bag(Owed(g), s'.workers) == Bag(Owed(g), s.workers);
  }

  lemma FeedConserves(g: Setting, s: State, s': State)
    requires s.fed <= |g.values| && Conserved(g, s) && Step(g, s, s', Feed)
    ensures Conserved(g, s')
  {
    assert Unfed(g, s') == Unfed(g, s);
  }

  lemma ClosingConserves(g: Setting, s: State, s': State)
    requires s.fed <= |g.values| && Conserved(g, s)
    requires s' == s.(inputClosed := s'.inputClosed, closes := s'.closes, drained := s'.drained)
    ensures Conserved(g, s')
  {
    assert Unfed(g, s') == Unfed(g, s);
  }

  lemma StepConserves(g: Setting, s: State, s': State, a: Action)
    requires s.fed <= |g.values| && Conserved(g, s) && Step(g, s, s', a) && !s'.panicked
    ensures s'.fed <= |g.values| && Conserved(g, s')
  {
    match a
    case Feed => FeedConserves(g, s, s');
    case Take(i) => TakeConserves(g, s, s', i);
    case Process(i) => ProcessConserves(g, s, s', i);
    case Emit(i) => EmitConserves(g, s, s', i);
    case Exit(i) => ExitConserves(g, s, s', i);
    case Receive => ReceiveConserves(g, s, s');
    case _ => ClosingConserves(g, s, s');
  }

  /** A live worker keeps the WaitGroup up, so nothing is sent once the results channel is closed. */
  lemma StepKeepsOrder(g: Setting, s: State, s': State, a: Action)
    requires Orderly(g, s) && Step(g, s, s', a)
    ensures Orderly(g, s')
  {
    if a.Take? || a.Process? || a.Emit? || a.Exit? {
      SumAtLeast(Live(), s.workers, a.i);
      SumUpdate(Live(), s.workers, a.i, s'.workers[a.i]);
    }
  }

  lemma StepKeepsInv(g: Setting, s: State, s': State, a: Action)
    requires Inv(g, s) && Step(g, s, s', a)
    ensures Inv(g, s')
  {
    StepKeepsOrder(g, s, s', a);
    StepConserves(g, s, s', a);
  }

  lemma {:induction false} RunKeepsInv(g: Setting, run: seq<State>, i: nat)
    requires IsRun(g, run) && i < |run|
    ensures Inv(g, run[i])
  {
    if i == 0 {
      InitIsInv(g);
    } else {
      RunKeepsInv(g, run, i - 1);
      assert Next(g, run[i - 1], run[i]);
      var a :| Step(g, run[i - 1], run[i], a);
      StepKeepsInv(g, run[i - 1], run[i], a);
    }
  }

  /******* Termination *******/

  ghost function StepsLeft(): Goroutine -> nat {
    (w: Goroutine) => match w
         case Receiving => 1
         case Processing(_) => 4
         case Sending(_) => 3
         case Exited => 0
  }

  ghost function Measure(g: Setting, s: State): nat
    requires Orderly(g, s)
  {
    5 * (|g.values| - s.fed) + 4 * |s.input| + Sum(StepsLeft(), s.workers) + |s.output|
    + (if s.inputClosed then 0 else 1) + (1 - s.closes) + (if s.drained then 0 else 1)
  }

  lemma OrderlyStepDecreasesMeasure(g: Setting, s: State, s': State, a: Action)
    requires Orderly(g, s) && Orderly(g, s') && Step(g, s, s', a)
    ensures Measure(g, s') == Measure(g, s) - 1
  {
    if a.Take? || a.Process? || a.Emit? || a.Exit? {
      SumUpdate(StepsLeft(), s.workers, a.i, s'.workers[a.i]);
    }
  }

  lemma StepDecreasesMeasure(g: Setting, s: State, s': State, a: Action)
    requires Inv(g, s) && Step(g, s, s', a)
    ensures Inv(g, s') && Measure(g, s') == Measure(g, s) - 1
  {
    StepKeepsInv(g, s, s', a);
    OrderlyStepDecreasesMeasure(g, s, s', a);
  }

  lemma {:induction false} RunsAreBounded(g: Setting, run: seq<State>, i: nat)
    requires IsRun(g, run) && i < |run|
    ensures Inv(g, run[0]) && Inv(g, run[i]) && Measure(g, run[i]) + i == Measure(g, run[0])
  {
    RunKeepsInv(g, run, 0);
    if i > 0 {
      RunsAreBounded(g, run, i - 1);
      assert Next(g, run[i - 1], run[i]);
      var a :| Step(g, run[i - 1], run[i], a);
      StepDecreasesMeasure(g, run[i - 1], run[i], a);
    }
  }

  /******* Deadlock freedom *******/

  lemma SomeStepIsEnabled(g: Setting, s: State)
    requires Inv(g, s) && !s.drained
    ensures exists s' :: Next(g, s, s')
  {
    var a := EnabledAction(g, s);
    var s' :| Step(g, s, s', a);
    assert Next(g, s, s');
  }

  ghost predicate Enabled(g: Setting, s: State, a: Action) {
    exists s' :: Step(g, s, s', a)
  }

  lemma EnabledAction(g: Setting, s: State) returns (a: Action)
    requires Inv(g, s) && !s.drained
    ensures Enabled(g, s, a)
  {
    SumZero(Live(), s.workers);
    if s.output != [] {
      a := Receive;
      assert Step(g, s, s.(output := s.output[1..], received := s.received + [s.output[0]]), a);
    } else if i :| 0 <= i < |s.workers| && s.workers[i].Sending? {
      a := Emit(i);
      assert Step(g, s, s.(output := s.output + [s.workers[i].r], workers := s.workers[i := Receiving]), a);
    } else if i :| 0 <= i < |s.workers| && s.workers[i].Processing? {
      a := Process(i);
      assert Step(g, s, s.(workers := s.workers[i := Sending(g.process(s.workers[i].v))]), a);
    } else if s.input != [] {
      a := Take(0);
      assert Step(g, s, s.(input := s.input[1..], workers := s.workers[0 := Processing(s.input[0])]), a);
    } else if s.fed < |g.values| {
      a := Feed;
      assert Step(g, s, s.(fed := s.fed + 1, input := s.input + [g.values[s.fed]]), a);
    } else if !s.inputClosed {
      a := CloseInput;
      assert Step(g, s, s.(inputClosed := true), a);
    } else if i :| 0 <= i < |s.workers| && s.workers[i].Receiving? {
      a := Exit(i);
      assert Step(g, s, s.(workers := s.workers[i := Exited], wg := s.wg - 1), a);
    } else if s.closes == 0 {
      a := CloseOutput;
      assert Step(g, s, s.(closes := s.closes + 1), a);
    } else {
      a := Drain;
      assert Step(g, s, s.(drained := true), a);
    }
  }

  /******* Main result *******/

  /**
   No schedule runs for more than a fixed number of steps, no schedule sends on the closed results
   channel, and a schedule that cannot go on has closed it once, drained it, and delivered exactly
   the results of all inputs.
   */
  lemma EveryScheduleDeliversAllResults(g: Setting, run: seq<State>)
    requires IsRun(g, run)
    ensures Inv(g, Init(g)) && |run| <= Measure(g, Init(g)) + 1
    ensures var last := run[|run| - 1];
      && !last.panicked && last.closes <= 1
      && ((!exists s' :: Next(g, last, s')) <==> last.drained)
      && (last.drained ==> last.closes == 1 && multiset(last.received) == multiset(Results(g, g.values)))
  {
    var last := run[|run| - 1];
    RunsAreBounded(g, run, |run| - 1);
    if last.drained {
      DrainedMeansDone(g, last);
    } else {
      SomeStepIsEnabled(g, last);
    }
  }

  lemma DrainedMeansDone(g: Setting, s: State)
    requires Inv(g, s) && s.drained
    ensures multiset(s.received) == multiset(Results(g, g.values))
    ensures !exists s' :: Next(g, s, s')
  {
    SumZero(Live(), s.workers);
    assert forall i :: 0 <= i < |s.workers| ==> Live()(s.workers[i]) == 0;
    assert s.workers[0].Exited?;
    BagEmpty(Owed(g), s.workers);
    assert Results(g, Unfed(g, s)) == [];
  }
}
