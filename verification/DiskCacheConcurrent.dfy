/**
 Concurrent callers of the disk cache (common/cache/disk.go, common/cache/filecompute.go) and of the
 watch cache in front of it (common/cache/watch.go).

 Any number of goroutines call LoadOrStoreFile on one cache.  Every sync.Map operation, every
 critical section of an entry lock, every file read and every loader call is one atomic step of
 one thread.  File contents stay fixed for the whole run.  The loader is a relation, so two calls
 on the same content may compute different values.
 */
module DiskCacheConcurrent {

  type Path(==, !new)
  type Key(==, !new)
  type Content(==, !new)
  type Hash(==, !new)
  type Value(==, !new)

  /** What stays fixed during a run: the kind of cache, the files, the content hash and what loaders may compute. */
  datatype Setting = Setting(
    watching: bool,
    content: map<Path, Content>,
    hash: Content -> Hash,
    loads: (Key, Path, Content, Value) -> bool)

  ghost predicate InjectiveHash(g: Setting) {
    forall c, d :: g.hash(c) == g.hash(d) ==> c == d
  }

  /** A heap object of type fileEntry; the path records which map slot it was created for. */
  datatype FileEntry = FileEntry(path: Path, data: map<Key, Value>)

  /** Where a thread stands inside LoadOrStoreFile; the names say what it does next. */
  datatype Pc =
    | Idle
    | Checking(p: Path, k: Key)
    | Peeking(p: Path, k: Key)
    | Recalling(p: Path, k: Key, e: nat)
    | Reading(p: Path, k: Key)
    | Hashing(p: Path, k: Key, c: Content)
    | Evicting(p: Path, k: Key, c: Content)
    | Publishing(p: Path, k: Key, c: Content)
    | LookingUp(p: Path, k: Key, c: Content)
    | Probing(p: Path, k: Key, c: Content, e: nat)
    | Computing(p: Path, k: Key, c: Content, e: nat)
    | Storing(p: Path, k: Key, c: Content, e: nat, v: Value)
    | Marking(p: Path)
  {
    /** The thread has its file's content at hand. */
    predicate HasContent() { Hashing? || Evicting? || Publishing? || LookingUp? || Probing? || Computing? || Storing? }

    /** The thread refers to an entry that another thread may have unlinked since. */
    predicate HoldsEntry() { Recalling? || Probing? || Computing? || Storing? }

    /** The thread is past the hash comparison and the eviction it may lead to. */
    predicate PastEviction() { Publishing? || LookingUp? || Probing? || Computing? || Storing? || Marking? }
  }

  datatype Call = Call(path: Path, key: Key, value: Value)

  /** The log of returned calls and the set of evicted paths only record what happened. */
  datatype State = State(
    entries: map<Path, nat>,
    heap: map<nat, FileEntry>,
    hashes: map<Path, Hash>,
    verified: set<Path>,
    threads: map<nat, Pc>,
    returned: seq<Call>,
    evicted: set<Path>)

  /** A successful call of the watch cache goes on to mark its path. */
  function AfterCall(g: Setting, p: Path): Pc {
    if g.watching then Marking(p) else Idle
  }

  /** One atomic step of thread t, which then stands at the program point it has in s'. */
  ghost predicate Step(g: Setting, s: State, s': State, t: nat) {
    && t in s.threads && t in s'.threads && s'.threads == s.threads[t := s'.threads[t]]
    && var next, still := s'.threads[t], s.(threads := s'.threads);
       match s.threads[t]
       case Idle => (if g.watching then next.Checking? else next.Reading?) && s' == still
       case Checking(p, k) => next == (if p in s.verified then Peeking(p, k) else Reading(p, k)) && s' == still
       case Peeking(p, k) =>
         next == (if p in s.entries then Recalling(p, k, s.entries[p]) else Reading(p, k)) && s' == still
       case Recalling(p, k, e) =>
         e in s.heap &&
         if k in s.heap[e].data then
           next == Idle && s' == still.(returned := s.returned + [Call(p, k, s.heap[e].data[k])])
         else
           next == Reading(p, k) && s' == still
       case Reading(p, k) =>
         next == (if p in g.content then Hashing(p, k, g.content[p]) else Idle) && s' == still
       case Hashing(p, k, c) =>
         next == (if p in s.hashes && s.hashes[p] != g.hash(c) then Evicting(p, k, c) else Publishing(p, k, c)) && s' == still
       case Evicting(p, k, c) =>
         next == Publishing(p, k, c) && s' == still.(entries := s.entries - {p}, evicted := s.evicted + {p})
       case Publishing(p, k, c) =>
         next == LookingUp(p, k, c) && s' == still.(hashes := s.hashes[p := g.hash(c)])
       case LookingUp(p, k, c) =>
         next.Probing? && next == Probing(p, k, c, next.e) &&
         if p in s.entries then
           next.e == s.entries[p] && s' == still
         else
           next.e !in s.heap &&
           s' == still.(entries := s.entries[p := next.e], heap := s.heap[next.e := FileEntry(p, map[])])
       case Probing(p, k, c, e) =>
         e in s.heap &&
         if k in s.heap[e].data then
           next == AfterCall(g, p) && s' == still.(returned := s.returned + [Call(p, k, s.heap[e].data[k])])
         else
           next == Computing(p, k, c, e) && s' == still
       case Computing(p, k, c, e) =>
         && (next == Idle || (next.Storing? && next == Storing(p, k, c, e, next.v) && g.loads(k, p, c, next.v)))
         && s' == still
       case Storing(p, k, c, e, v) =>
         e in s.heap && next == AfterCall(g, p) &&
         if k in s.heap[e].data then
           s' == still.(returned := s.returned + [Call(p, k, s.heap[e].data[k])])
         else
           s' == still.(heap := s.heap[e := FileEntry(s.heap[e].path, s.heap[e].data[k := v])],
                        returned := s.returned + [Call(p, k, v)])
       case Marking(p) => next == Idle && s' == still.(verified := s.verified + {p})
  }

  ghost predicate Next(g: Setting, s: State, s': State) {
    exists t :: Step(g, s, s', t)
  }

  ghost predicate Linked(s: State, p: Path, e: nat) {
    p in s.entries && s.entries[p] == e && e in s.heap && s.heap[e].path == p
  }

  ghost predicate Quiet(s: State) {
    forall t :: t in s.threads ==> s.threads[t] == Idle
  }

  /** No call has begun; only the watch cache has marks. */
  ghost predicate Start(g: Setting, s: State) {
    && Quiet(s) && s.returned == [] && s.evicted == {} && (g.watching || s.verified == {})
    && (forall p :: p in s.entries ==> Linked(s, p, s.entries[p]))
  }

  ghost predicate IsPath(g: Setting, run: seq<State>) {
    |run| > 0 && forall i :: 0 < i < |run| ==> Next(g, run[i - 1], run[i])
  }

  ghost predicate IsRun(g: Setting, run: seq<State>) {
    IsPath(g, run) && Start(g, run[0])
  }

  /******* Freshness: no stale value is ever returned *******/

  ghost predicate FreshCall(g: Setting, call: Call) {
    call.path in g.content && g.loads(call.key, call.path, g.content[call.path], call.value)
  }

  /** All values of an entry are what a loader may compute on the current content. */
  ghost predicate Fresh(g: Setting, s: State, e: nat) {
    e in s.heap && forall k :: k in s.heap[e].data ==> FreshCall(g, Call(s.heap[e].path, k, s.heap[e].data[k]))
  }

  /** The stored hash gives the entry of p away. */
  ghost predicate Distrusted(g: Setting, s: State, p: Path)
    requires p in g.content
  {
    p in s.hashes && s.hashes[p] != g.hash(g.content[p])
  }

  /** A start from which stale entries are given away by their hash and carry no mark. */
  ghost predicate SoundStart(g: Setting, s: State) {
    forall p :: p in s.entries ==>
      Fresh(g, s, s.entries[p]) || (p !in s.verified && (p in g.content ==> Distrusted(g, s, p)))
  }

  ghost predicate ThreadOk(g: Setting, s: State, t: nat)
    requires t in s.threads
  {
    var pc := s.threads[t];
    && (pc.HasContent() ==> pc.p in g.content && pc.c == g.content[pc.p])
    && (pc.HoldsEntry() ==> Fresh(g, s, pc.e) && s.heap[pc.e].path == pc.p)
    && (pc.Storing? ==> g.loads(pc.k, pc.p, pc.c, pc.v))
    && (pc.Peeking? ==> pc.p in s.verified)
    && (pc.Marking? ==> pc.p in g.content)
  }

  ghost predicate NobodyPastEviction(s: State, p: Path) {
    forall t :: t in s.threads && s.threads[t].PastEviction() ==> s.threads[t].p != p
  }

  /** The stored hash still gives the entry of p away, and nobody relies on that entry. */
  ghost predicate Exposed(g: Setting, s: State, p: Path) {
    p !in s.verified && NobodyPastEviction(s, p) && (p in g.content ==> Distrusted(g, s, p))
  }

  ghost predicate EntryOk(g: Setting, s: State, p: Path)
    requires p in s.entries
  {
    Linked(s, p, s.entries[p]) && (Fresh(g, s, s.entries[p]) || Exposed(g, s, p))
  }

  ghost predicate FreshInv(g: Setting, s: State) {
    && (forall p :: p in s.entries ==> EntryOk(g, s, p))
    && (forall t :: t in s.threads ==> ThreadOk(g, s, t))
    && (forall call :: call in s.returned ==> FreshCall(g, call))
  }

  lemma SoundStartIsFresh(g: Setting, s: State)
    requires Start(g, s) && SoundStart(g, s)
    ensures FreshInv(g, s)
  {
    forall p | p in s.entries ensures EntryOk(g, s, p) {
      assert Linked(s, p, s.entries[p]);
    }
  }

  /** Steps only add loader results to entries, so fresh entries stay fresh, linked or not. */
  lemma StepKeepsEntriesFresh(g: Setting, s: State, s': State, t: nat, e: nat)
    requires Step(g, s, s', t) && ThreadOk(g, s, t)
    requires Fresh(g, s, e)
    ensures Fresh(g, s', e) && s'.heap[e].path == s.heap[e].path
  {}

  lemma StepKeepsOwnThreadOk(g: Setting, s: State, s': State, t: nat)
    requires Step(g, s, s', t) && ThreadOk(g, s, t)
    requires (s.threads[t].LookingUp? || s.threads[t].Peeking?) && s.threads[t].p in s.entries ==> EntryOk(g, s, s.threads[t].p)
    ensures t in s'.threads && ThreadOk(g, s', t)
  {
    var pc := s.threads[t];
    if pc.HoldsEntry() {
      StepKeepsEntriesFresh(g, s, s', t, pc.e);
    }
  }

  lemma StepKeepsThreadsOk(g: Setting, s: State, s': State, t: nat, u: nat)
    requires FreshInv(g, s) && Step(g, s, s', t)
    requires u in s'.threads
    ensures ThreadOk(g, s', u)
  {
    var own, pc := s.threads[t], s.threads[u];
    assert ThreadOk(g, s, t) && ThreadOk(g, s, u);
    if u == t {
      assert (own.LookingUp? || own.Peeking?) && own.p in s.entries ==> EntryOk(g, s, own.p);
      StepKeepsOwnThreadOk(g, s, s', t);
    } else if pc.HoldsEntry() {
      StepKeepsEntriesFresh(g, s, s', t, pc.e);
    }
  }

  /** Only an evicting thread gets past the comparison while the stored hash differs, and then the entry is gone. */
  lemma StepKeepsExposed(g: Setting, s: State, s': State, t: nat, p: Path)
    requires Step(g, s, s', t) && ThreadOk(g, s, t)
    requires Exposed(g, s, p) && p in s'.entries && p in s.entries
    ensures Exposed(g, s', p) && s'.entries[p] == s.entries[p]
  {}

  lemma StepKeepsEntryOk(g: Setting, s: State, s': State, t: nat, p: Path)
    requires Step(g, s, s', t) && ThreadOk(g, s, t)
    requires p in s'.entries && (p in s.entries ==> EntryOk(g, s, p))
    ensures EntryOk(g, s', p)
  {
    if p in s.entries {
      if Fresh(g, s, s.entries[p]) {
        StepKeepsEntriesFresh(g, s, s', t, s.entries[p]);
      } else {
        StepKeepsExposed(g, s, s', t, p);
      }
    }
  }

  lemma StepReturnsFresh(g: Setting, s: State, s': State, t: nat)
    requires Step(g, s, s', t) && ThreadOk(g, s, t)
    ensures forall call :: call in s'.returned ==> call in s.returned || FreshCall(g, call)
  {}

  lemma StepKeepsFreshness(g: Setting, s: State, s': State, t: nat)
    requires FreshInv(g, s) && Step(g, s, s', t)
    ensures FreshInv(g, s')
  {
    assert ThreadOk(g, s, t);
    forall u | u in s'.threads ensures ThreadOk(g, s', u) {
      StepKeepsThreadsOk(g, s, s', t, u);
    }
    forall p | p in s'.entries ensures EntryOk(g, s', p) {
      StepKeepsEntryOk(g, s, s', t, p);
    }
    StepReturnsFresh(g, s, s', t);
  }

  /** Along every interleaving from a sound start, every returned value is what a loader may compute now. */
  lemma {:induction false} EveryReturnIsFresh(g: Setting, run: seq<State>, i: nat)
    requires IsRun(g, run) && SoundStart(g, run[0]) && i < |run|
    ensures FreshInv(g, run[i])
    ensures forall call :: call in run[i].returned ==> FreshCall(g, call)
  {
    if i == 0 {
      SoundStartIsFresh(g, run[0]);
    } else {
      EveryReturnIsFresh(g, run, i - 1);
      assert Next(g, run[i - 1], run[i]);
      var t :| Step(g, run[i - 1], run[i], t);
      StepKeepsFreshness(g, run[i - 1], run[i], t);
    }
  }

  /******* Every call is answered *******/

  /** The thread is in a call for this path and key that has not returned. */
  predicate InCall(pc: Pc, p: Path, k: Key) {
    !pc.Idle? && !pc.Marking? && pc.p == p && pc.k == k
  }

  /** How many steps a call can still take. */
  function Rank(pc: Pc): nat {
    match pc
    case Checking(_, _) => 11
    case Peeking(_, _) => 10
    case Recalling(_, _, _) => 9
    case Reading(_, _) => 8
    case Hashing(_, _, _) => 7
    case Evicting(_, _, _) => 6
    case Publishing(_, _, _) => 5
    case LookingUp(_, _, _) => 4
    case Probing(_, _, _, _) => 3
    case Computing(_, _, _, _) => 2
    case Storing(_, _, _, _, _) => 1
    case _ => 0
  }

  /** A call ends with a value, unless its file is missing or the loader fails. */
  ghost predicate EndsRightly(g: Setting, s: State, s': State, t: nat, p: Path, k: Key)
    requires t in s.threads
  {
    || (s.threads[t].Reading? && p !in g.content)
    || s.threads[t].Computing?
    || exists v :: s'.returned == s.returned + [Call(p, k, v)]
  }

  /** No step drops a call: it stays the call of its thread, which gets nearer to its end, or it ends rightly. */
  lemma CallGoesOn(g: Setting, s: State, s': State, t: nat, u: nat, p: Path, k: Key)
    requires Step(g, s, s', t) && u in s.threads && InCall(s.threads[u], p, k)
    ensures u in s'.threads
    ensures u != t ==> s'.threads[u] == s.threads[u]
    ensures u == t ==> if InCall(s'.threads[u], p, k) then Rank(s'.threads[u]) < Rank(s.threads[u])
                       else EndsRightly(g, s, s', t, p, k)
  {
    if u == t && !InCall(s'.threads[u], p, k) && !s.threads[t].Reading? && !s.threads[t].Computing? {
      var data := s.heap[s.threads[t].e].data;
      var v := if k in data then data[k] else s.threads[t].v;
      assert s'.returned == s.returned + [Call(p, k, v)];
    }
  }

  lemma {:induction false} UnusedName(names: set<nat>) returns (e: nat)
    ensures forall n :: n in names ==> n < e
  {
    if names == {} {
      e := 0;
    } else {
      var n :| n in names;
      var m := UnusedName(names - {n});
      e := if m > n then m else n + 1;
      assert forall k :: k in names ==> k == n || k in names - {n};
    }
  }

  /** A call never waits for another thread. */
  lemma CallCanStep(g: Setting, s: State, t: nat) returns (s': State)
    requires t in s.threads && !s.threads[t].Idle? && ThreadOk(g, s, t)
    ensures Step(g, s, s', t)
  {
    var pc := s.threads[t];
    match pc
    case Checking(p, k) => s' := At(s, t, if p in s.verified then Peeking(p, k) else Reading(p, k));
    case Peeking(p, k) => s' := At(s, t, if p in s.entries then Recalling(p, k, s.entries[p]) else Reading(p, k));
    case Recalling(p, k, e) =>
      s' := if k in s.heap[e].data then Returns(s, t, Idle, Call(p, k, s.heap[e].data[k])) else At(s, t, Reading(p, k));
    case Reading(p, k) => s' := At(s, t, if p in g.content then Hashing(p, k, g.content[p]) else Idle);
    case Hashing(p, k, c) =>
      s' := At(s, t, if p in s.hashes && s.hashes[p] != g.hash(c) then Evicting(p, k, c) else Publishing(p, k, c));
    case Evicting(p, k, c) => s' := At(s, t, Publishing(p, k, c)).(entries := s.entries - {p}, evicted := s.evicted + {p});
    case Publishing(p, k, c) => s' := At(s, t, LookingUp(p, k, c)).(hashes := s.hashes[p := g.hash(c)]);
    case LookingUp(p, k, c) => s' := LooksUp(s, t, p, k, c);
    case Probing(p, k, c, e) =>
      s' := if k in s.heap[e].data then Returns(s, t, AfterCall(g, p), Call(p, k, s.heap[e].data[k]))
            else At(s, t, Computing(p, k, c, e));
    case Computing(p, k, c, e) => s' := At(s, t, Idle);
    case Storing(p, k, c, e, v) =>
      var data := s.heap[e].data;
      s' := if k in data then Returns(s, t, AfterCall(g, p), Call(p, k, data[k]))
            else Returns(s, t, AfterCall(g, p), Call(p, k, v)).(heap := s.heap[e := FileEntry(s.heap[e].path, data[k := v])]);
    case Marking(p) => s' := At(s, t, Idle).(verified := s.verified + {p});
  }

  function Returns(s: State, t: nat, pc: Pc, call: Call): State {
    At(s, t, pc).(returned := s.returned + [call])
  }

  lemma LooksUp(s: State, t: nat, p: Path, k: Key, c: Content) returns (s': State)
    ensures if p in s.entries then s' == At(s, t, Probing(p, k, c, s.entries[p]))
            else exists e :: e !in s.heap && s' == At(s, t, Probing(p, k, c, e)).(
              entries := s.entries[p := e], heap := s.heap[e := FileEntry(p, map[])])
  {
    if p in s.entries {
      s' := At(s, t, Probing(p, k, c, s.entries[p]));
    } else {
      var e := UnusedName(s.heap.Keys);
      s' := At(s, t, Probing(p, k, c, e)).(entries := s.entries[p := e], heap := s.heap[e := FileEntry(p, map[])]);
    }
  }

  /******* The next run *******/

  /** The maps when the next run begins, after the paths that changed have been invalidated. */
  function NextCycle(s: State, paths: set<Path>): State {
    State(s.entries - paths, s.heap, s.hashes - paths, s.verified - paths, s.threads, [], {})
  }

  /** In a watch session every run starts soundly if all paths changed since the last one are invalidated. */
  lemma NextCycleIsSound(g: Setting, run: seq<State>, later: Setting, paths: set<Path>)
    requires g.watching && IsRun(g, run) && SoundStart(g, run[0])
    requires Quiet(run[|run| - 1])
    requires later == g.(content := later.content) && later.content - paths == g.content - paths
    ensures Start(later, NextCycle(run[|run| - 1], paths)) && SoundStart(later, NextCycle(run[|run| - 1], paths))
  {
    var s, s' := run[|run| - 1], NextCycle(run[|run| - 1], paths);
    EveryReturnIsFresh(g, run, |run| - 1);
    forall p | p in s'.entries
      ensures Linked(s', p, s'.entries[p])
      ensures Fresh(later, s', s'.entries[p]) || (p !in s'.verified && (p in later.content ==> Distrusted(later, s', p)))
    {
      assert EntryOk(g, s, p) && p !in paths;
      assert p in later.content - paths <==> p in g.content - paths;
      assert p in g.content ==> (later.content - paths)[p] == (g.content - paths)[p];
    }
  }

  /******* Sound starts are needed *******/

  ghost predicate ReturnsFresh(g: Setting, run: seq<State>) {
    forall i, call :: 0 <= i < |run| && call in run[i].returned ==> FreshCall(g, call)
  }

  function At(s: State, t: nat, pc: Pc): State {
    s.(threads := s.threads[t := pc])
  }

  lemma PathGoesOn(g: Setting, run: seq<State>, s: State, t: nat)
    requires IsPath(g, run) && Step(g, run[|run| - 1], s, t)
    ensures IsPath(g, run + [s])
  {
    forall i | 0 < i < |run + [s]| ensures Next(g, (run + [s])[i - 1], (run + [s])[i]) {
      assert i < |run| ==> Next(g, run[i - 1], run[i]);
    }
  }

  /** A marked path is answered without any look at its file. */
  lemma MarkedEntryIsReturned(g: Setting, s: State, t: nat, p: Path, k: Key) returns (run: seq<State>)
    requires Start(g, s) && t in s.threads && p in s.verified && p in s.entries && k in s.heap[s.entries[p]].data
    ensures IsPath(g, run) && run[0] == s
    ensures Call(p, k, s.heap[s.entries[p]].data[k]) in run[|run| - 1].returned
  {
    var e := s.entries[p];
    var checking, peeking, recalling := At(s, t, Checking(p, k)), At(s, t, Peeking(p, k)), At(s, t, Recalling(p, k, e));
    var done := At(s, t, Idle).(returned := s.returned + [Call(p, k, s.heap[e].data[k])]);
    run := [s];
    PathGoesOn(g, run, checking, t);
    run := run + [checking];
    PathGoesOn(g, run, peeking, t);
    run := run + [peeking];
    PathGoesOn(g, run, recalling, t);
    run := run + [recalling];
    PathGoesOn(g, run, done, t);
    run := run + [done];
  }

  function Published(g: Setting, s: State, p: Path): State
    requires p in g.content
  {
    s.(hashes := s.hashes[p := g.hash(g.content[p])])
  }

  /** The steps of a call that finds no reason to evict, up to its lookup. */
  lemma ReadingSteps(g: Setting, s: State, t: nat, p: Path, k: Key)
    requires t in s.threads && p in g.content && !Distrusted(g, s, p)
    ensures var c := g.content[p];
      && Step(g, At(s, t, Reading(p, k)), At(s, t, Hashing(p, k, c)), t)
      && Step(g, At(s, t, Hashing(p, k, c)), At(s, t, Publishing(p, k, c)), t)
      && Step(g, At(s, t, Publishing(p, k, c)), At(Published(g, s, p), t, LookingUp(p, k, c)), t)
  {
  }

  /** The run of a call on an unmarked path that finds no reason to evict, up to its lookup. */
  lemma LookedUp(g: Setting, s: State, t: nat, p: Path, k: Key) returns (run: seq<State>)
    requires Start(g, s) && t in s.threads && p !in s.verified && p in g.content && !Distrusted(g, s, p)
    ensures IsPath(g, run) && run[0] == s
    ensures run[|run| - 1] == At(Published(g, s, p), t, LookingUp(p, k, g.content[p]))
  {
    var c := g.content[p];
    run := BeganReading(g, s, t, p, k);
    ReadingSteps(g, s, t, p, k);
    PathGoesOn(g, run, At(s, t, Hashing(p, k, c)), t);
    run := run + [At(s, t, Hashing(p, k, c))];
    PathGoesOn(g, run, At(s, t, Publishing(p, k, c)), t);
    run := run + [At(s, t, Publishing(p, k, c))];
    PathGoesOn(g, run, At(Published(g, s, p), t, LookingUp(p, k, c)), t);
    run := run + [At(Published(g, s, p), t, LookingUp(p, k, c))];
  }

  lemma BeganReading(g: Setting, s: State, t: nat, p: Path, k: Key) returns (run: seq<State>)
    requires Start(g, s) && t in s.threads && p !in s.verified
    ensures IsPath(g, run) && run[0] == s && run[|run| - 1] == At(s, t, Reading(p, k))
  {
    run := [s];
    if g.watching {
      PathGoesOn(g, run, At(s, t, Checking(p, k)), t);
      run := run + [At(s, t, Checking(p, k))];
    }
    PathGoesOn(g, run, At(s, t, Reading(p, k)), t);
    run := run + [At(s, t, Reading(p, k))];
  }

  /** An unmarked path whose hash is missing or that of the content is answered from its entry. */
  lemma TrustedEntryIsReturned(g: Setting, s: State, t: nat, p: Path, k: Key) returns (run: seq<State>)
    requires Start(g, s) && t in s.threads && p !in s.verified && p in s.entries && k in s.heap[s.entries[p]].data
    requires p in g.content && !Distrusted(g, s, p)
    ensures IsPath(g, run) && run[0] == s
    ensures Call(p, k, s.heap[s.entries[p]].data[k]) in run[|run| - 1].returned
  {
    var c, e, published := g.content[p], s.entries[p], Published(g, s, p);
    run := LookedUp(g, s, t, p, k);
    PathGoesOn(g, run, At(published, t, Probing(p, k, c, e)), t);
    run := run + [At(published, t, Probing(p, k, c, e))];
    var done := At(published, t, AfterCall(g, p)).(returned := s.returned + [Call(p, k, s.heap[e].data[k])]);
    PathGoesOn(g, run, done, t);
    run := run + [done];
  }

  /** Every run from a start returns fresh values only, exactly if the start is sound. */
  lemma FreshExactlyFromSoundStarts(g: Setting, s: State)
    requires Start(g, s) && s.threads != map[]
    ensures (forall run: seq<State> :: IsPath(g, run) && run[0] == s ==> ReturnsFresh(g, run)) <==> SoundStart(g, s)
  {
    if SoundStart(g, s) {
      forall run: seq<State> | IsPath(g, run) && run[0] == s ensures ReturnsFresh(g, run) {
        forall i, call: Call | 0 <= i < |run| && call in run[i].returned ensures FreshCall(g, call) {
          EveryReturnIsFresh(g, run, i);
        }
      }
    } else {
      var run := UnsoundStartReturnsStale(g, s);
      assert !ReturnsFresh(g, run);
    }
  }

  lemma UnsoundStartReturnsStale(g: Setting, s: State) returns (run: seq<State>)
    requires Start(g, s) && s.threads != map[] && !SoundStart(g, s)
    ensures IsPath(g, run) && run[0] == s && !ReturnsFresh(g, run)
  {
    var t :| t in s.threads;
    var p :| p in s.entries && !Fresh(g, s, s.entries[p]) && (p in s.verified || (p in g.content && !Distrusted(g, s, p)));
    assert Linked(s, p, s.entries[p]);
    var data := s.heap[s.entries[p]].data;
    var k :| k in data && !FreshCall(g, Call(p, k, data[k]));
    if p in s.verified {
      run := MarkedEntryIsReturned(g, s, t, p, k);
    } else {
      run := TrustedEntryIsReturned(g, s, t, p, k);
    }
    assert Call(p, k, data[k]) in run[|run| - 1].returned;
  }

  /******* Agreement: while a path is not evicted, its callers share one stored value per key *******/

  ghost predicate StoredCall(s: State, call: Call) {
    && call.path in s.entries && s.entries[call.path] in s.heap
    && var data := s.heap[s.entries[call.path]].data;
       call.key in data && data[call.key] == call.value
  }

  ghost predicate AgreeInv(s: State) {
    && (forall p :: p in s.entries ==> Linked(s, p, s.entries[p]))
    && (forall t :: t in s.threads ==> ThreadLinked(s, t))
    && (forall call :: call in s.returned && call.path !in s.evicted ==> StoredCall(s, call))
  }

  lemma StepKeepsLinked(g: Setting, s: State, s': State, t: nat, p: Path, e: nat)
    requires Step(g, s, s', t)
    requires Linked(s, p, e) && p !in s'.evicted
    ensures Linked(s', p, e)
  {}

  lemma StepKeepsStoredCall(g: Setting, s: State, s': State, t: nat, call: Call)
    requires Step(g, s, s', t) && StoredCall(s, call) && call.path !in s'.evicted
    ensures StoredCall(s', call)
  {}

  lemma StepLinksEntries(g: Setting, s: State, s': State, t: nat, p: Path)
    requires AgreeInv(s) && Step(g, s, s', t) && p in s'.entries
    ensures Linked(s', p, s'.entries[p])
  {
    if p in s.entries {
      assert Linked(s, p, s.entries[p]);
    }
  }

  ghost predicate ThreadLinked(s: State, t: nat)
    requires t in s.threads
  {
    s.threads[t].HoldsEntry() && s.threads[t].p !in s.evicted ==> Linked(s, s.threads[t].p, s.threads[t].e)
  }

  lemma StepLinksThread(g: Setting, s: State, s': State, t: nat, u: nat)
    requires AgreeInv(s) && Step(g, s, s', t) && u in s'.threads
    ensures ThreadLinked(s', u)
  {
    var pc, pc' := s.threads[u], s'.threads[u];
    assert ThreadLinked(s, u);
    if pc'.HoldsEntry() && pc'.p !in s'.evicted {
      if pc.HoldsEntry() {
        StepKeepsLinked(g, s, s', t, pc.p, pc.e);
      } else if pc.p in s.entries {
        StepKeepsLinked(g, s, s', t, pc.p, s.entries[pc.p]);
      }
    }
  }

  lemma StepStoresCall(g: Setting, s: State, s': State, t: nat, call: Call)
    requires AgreeInv(s) && Step(g, s, s', t) && call in s'.returned && call.path !in s'.evicted
    ensures StoredCall(s', call)
  {
    if call in s.returned {
      StepKeepsStoredCall(g, s, s', t, call);
    } else {
      assert Linked(s, call.path, s.threads[t].e);
    }
  }

  lemma StepKeepsAgreement(g: Setting, s: State, s': State, t: nat)
    requires AgreeInv(s) && Step(g, s, s', t)
    ensures AgreeInv(s')
  {
    forall p | p in s'.entries ensures Linked(s', p, s'.entries[p]) {
      StepLinksEntries(g, s, s', t, p);
    }
    forall u | u in s'.threads ensures ThreadLinked(s', u) {
      StepLinksThread(g, s, s', t, u);
    }
    forall call | call in s'.returned && call.path !in s'.evicted ensures StoredCall(s', call) {
      StepStoresCall(g, s, s', t, call);
    }
  }

  lemma {:induction false} AgreementAlongRuns(g: Setting, run: seq<State>, i: nat)
    requires IsRun(g, run) && i < |run|
    ensures AgreeInv(run[i])
  {
    if i > 0 {
      AgreementAlongRuns(g, run, i - 1);
      assert Next(g, run[i - 1], run[i]);
      var t :| Step(g, run[i - 1], run[i], t);
      StepKeepsAgreement(g, run[i - 1], run[i], t);
    }
  }

  /** The persisted hash of p, if there is one, is that of its current content. */
  ghost predicate Trusted(g: Setting, s: State, p: Path) {
    p in g.content && (p in s.hashes ==> s.hashes[p] == g.hash(g.content[p]))
  }

  ghost predicate QuietThread(g: Setting, s: State, t: nat, p: Path)
    requires t in s.threads && p in g.content
  {
    && !(s.threads[t].Evicting? && s.threads[t].p == p)
    && (s.threads[t].HasContent() && s.threads[t].p == p ==> s.threads[t].c == g.content[p])
  }

  ghost predicate NeverEvicted(g: Setting, s: State, p: Path) {
    && p !in s.evicted && Trusted(g, s, p)
    && forall t :: t in s.threads ==> QuietThread(g, s, t, p)
  }

  lemma StepKeepsTrusted(g: Setting, s: State, s': State, t: nat, p: Path)
    requires Trusted(g, s, p) && p !in s.evicted && Step(g, s, s', t) && QuietThread(g, s, t, p)
    ensures Trusted(g, s', p) && p !in s'.evicted
  {}

  lemma StepKeepsQuiet(g: Setting, s: State, s': State, t: nat, p: Path)
    requires Trusted(g, s, p) && Step(g, s, s', t) && QuietThread(g, s, t, p)
    ensures t in s'.threads && QuietThread(g, s', t, p)
  {}

  lemma StepKeepsNeverEvicted(g: Setting, s: State, s': State, t: nat, p: Path)
    requires NeverEvicted(g, s, p) && Step(g, s, s', t)
    ensures NeverEvicted(g, s', p)
  {
    StepKeepsTrusted(g, s, s', t, p);
    StepKeepsQuiet(g, s, s', t, p);
    forall u | u in s'.threads ensures QuietThread(g, s', u, p) {
      assert QuietThread(g, s, u, p);
    }
  }

  lemma {:induction false} TrustedPathsAreNeverEvicted(g: Setting, run: seq<State>, i: nat, p: Path)
    requires IsRun(g, run) && i < |run| && Trusted(g, run[0], p)
    ensures NeverEvicted(g, run[i], p)
  {
    if i > 0 {
      TrustedPathsAreNeverEvicted(g, run, i - 1, p);
      assert Next(g, run[i - 1], run[i]);
      var t :| Step(g, run[i - 1], run[i], t);
      StepKeepsNeverEvicted(g, run[i - 1], run[i], t, p);
    }
  }

  /**
   With no eviction of a path, all its callers of one key get the one stored value, whichever
   loader call produced it; and a path is never evicted unless its persisted hash is out of date.
   */
  lemma CallersAgree(g: Setting, run: seq<State>, i: nat, a: Call, b: Call)
    requires IsRun(g, run) && i < |run| && a in run[i].returned && b in run[i].returned
    requires a.path == b.path && a.key == b.key
    ensures a.path !in run[i].evicted ==> a.value == b.value
    ensures Trusted(g, run[0], a.path) ==> a.value == b.value
  {
    AgreementAlongRuns(g, run, i);
    if Trusted(g, run[0], a.path) {
      TrustedPathsAreNeverEvicted(g, run, i, a.path);
    }
  }

  /******* Persisting: what is written is a sound start for whatever the files are later *******/

  /** The values of an entry were all computed by a loader from content c of path p. */
  ghost predicate ComputedFrom(g: Setting, p: Path, c: Content, data: map<Key, Value>) {
    forall k :: k in data ==> g.loads(k, p, c, data[k])
  }

  /** A row has a hash, of a content its values were computed from. */
  ghost predicate WarmRow(g: Setting, hashes: map<Path, Hash>, p: Path, data: map<Key, Value>) {
    p in hashes && exists c :: g.hash(c) == hashes[p] && ComputedFrom(g, p, c, data)
  }

  function Row(s: State, p: Path): map<Key, Value>
    requires p in s.entries && s.entries[p] in s.heap
  {
    s.heap[s.entries[p]].data
  }

  ghost predicate Warm(g: Setting, s: State) {
    forall p :: p in s.entries ==> Linked(s, p, s.entries[p]) && WarmRow(g, s.hashes, p, Row(s, p))
  }

  /** Warm rows are sound for every content of the files. */
  lemma WarmIsSound(g: Setting, s: State)
    requires InjectiveHash(g) && Warm(g, s) && s.verified == {}
    ensures SoundStart(g, s)
  {
    forall p | p in s.entries && p in g.content && !Distrusted(g, s, p) ensures Fresh(g, s, s.entries[p]) {
      assert WarmRow(g, s.hashes, p, Row(s, p));
    }
  }

  ghost predicate HashIsCurrent(g: Setting, s: State, p: Path) {
    p in g.content && p in s.hashes && s.hashes[p] == g.hash(g.content[p])
  }

  ghost predicate PublishedThread(g: Setting, s: State, t: nat)
    requires t in s.threads
  {
    var pc := s.threads[t];
    && (pc.HasContent() ==> pc.p in g.content && pc.c == g.content[pc.p])
    && (pc.PastEviction() && !pc.Publishing? ==> HashIsCurrent(g, s, pc.p))
    && (pc.HoldsEntry() ==> pc.e in s.heap && s.heap[pc.e].path == pc.p)
    && (pc.Storing? ==> g.loads(pc.k, pc.p, pc.c, pc.v))
  }

  ghost predicate WarmEntry(g: Setting, s: State, p: Path)
    requires p in s.entries
  {
    && Linked(s, p, s.entries[p]) && WarmRow(g, s.hashes, p, Row(s, p))
    && (HashIsCurrent(g, s, p) || NobodyPastEviction(s, p))
  }

  ghost predicate WarmInv(g: Setting, s: State) {
    && (forall p :: p in s.entries ==> WarmEntry(g, s, p))
    && (forall t :: t in s.threads ==> PublishedThread(g, s, t))
  }

  lemma StepKeepsHashCurrent(g: Setting, s: State, s': State, t: nat, p: Path)
    requires Step(g, s, s', t) && PublishedThread(g, s, t) && HashIsCurrent(g, s, p)
    ensures HashIsCurrent(g, s', p)
  {}

  lemma StepKeepsOwnPublished(g: Setting, s: State, s': State, t: nat)
    requires Step(g, s, s', t) && PublishedThread(g, s, t)
    requires (s.threads[t].LookingUp? || s.threads[t].Peeking?) && s.threads[t].p in s.entries ==>
      Linked(s, s.threads[t].p, s.entries[s.threads[t].p])
    ensures t in s'.threads && PublishedThread(g, s', t)
  {
    var pc := s.threads[t];
    if pc.PastEviction() && !pc.Publishing? {
      StepKeepsHashCurrent(g, s, s', t, pc.p);
    }
  }

  lemma StepKeepsPublished(g: Setting, s: State, s': State, t: nat, u: nat)
    requires WarmInv(g, s) && Step(g, s, s', t) && u in s'.threads
    ensures PublishedThread(g, s', u)
  {
    var own, pc := s.threads[t], s.threads[u];
    assert PublishedThread(g, s, t) && PublishedThread(g, s, u);
    if u == t {
      assert (own.LookingUp? || own.Peeking?) && own.p in s.entries ==> WarmEntry(g, s, own.p);
      StepKeepsOwnPublished(g, s, s', t);
    } else if pc.PastEviction() && !pc.Publishing? {
      StepKeepsHashCurrent(g, s, s', t, pc.p);
    }
  }

  lemma StepKeepsWarmRow(g: Setting, s: State, s': State, t: nat, p: Path)
    requires InjectiveHash(g) && Step(g, s, s', t) && PublishedThread(g, s, t) && p in s'.entries
    requires p in s.entries ==> WarmEntry(g, s, p)
    ensures Linked(s', p, s'.entries[p]) && WarmRow(g, s'.hashes, p, Row(s', p))
  {
    if p in s.entries {
      var c :| g.hash(c) == s.hashes[p] && ComputedFrom(g, p, c, Row(s, p));
      assert s'.hashes[p] == s.hashes[p] && ComputedFrom(g, p, c, Row(s', p));
    } else {
      assert ComputedFrom(g, p, s.threads[t].c, Row(s', p));
    }
  }

  lemma StepKeepsWarmEntry(g: Setting, s: State, s': State, t: nat, p: Path)
    requires InjectiveHash(g) && WarmInv(g, s) && Step(g, s, s', t) && p in s'.entries
    ensures WarmEntry(g, s', p)
  {
    assert PublishedThread(g, s, t);
    StepKeepsWarmRow(g, s, s', t, p);
    if HashIsCurrent(g, s, p) {
      StepKeepsHashCurrent(g, s, s', t, p);
    }
  }

  /** At every moment of every run from a warm state, the maps as they are then make a warm row of every entry. */
  lemma {:induction false} MapsStayWarm(g: Setting, run: seq<State>, i: nat)
    requires InjectiveHash(g) && IsRun(g, run) && Warm(g, run[0]) && i < |run|
    ensures WarmInv(g, run[i]) && Warm(g, run[i])
  {
    if i > 0 {
      var s, s' := run[i - 1], run[i];
      MapsStayWarm(g, run, i - 1);
      assert Next(g, s, s');
      var t :| Step(g, s, s', t);
      forall u | u in s'.threads ensures PublishedThread(g, s', u) {
        StepKeepsPublished(g, s, s', t, u);
      }
      forall p | p in s'.entries ensures WarmEntry(g, s', p) {
        StepKeepsWarmEntry(g, s, s', t, p);
      }
    }
    forall p | p in run[i].entries ensures Linked(run[i], p, run[i].entries[p]) && WarmRow(g, run[i].hashes, p, Row(run[i], p)) {
      assert WarmEntry(g, run[i], p);
    }
  }

  lemma {:induction false} CurrentHashStays(g: Setting, run: seq<State>, i: nat, j: nat, p: Path)
    requires InjectiveHash(g) && IsRun(g, run) && Warm(g, run[0]) && i <= j < |run| && HashIsCurrent(g, run[i], p)
    ensures HashIsCurrent(g, run[j], p)
  {
    if i < j {
      var s, s' := run[j - 1], run[j];
      CurrentHashStays(g, run, i, j - 1, p);
      assert WarmInv(g, s) by {
        MapsStayWarm(g, run, j - 1);
      }
      assert Next(g, s, s');
      var t :| Step(g, s, s', t);
      assert PublishedThread(g, s, t);
      StepKeepsHashCurrent(g, s, s', t, p);
    }
  }

  /** Some value of the row comes from no other content. */
  ghost predicate TellsApart(g: Setting, p: Path, c: Content, data: map<Key, Value>) {
    exists k :: k in data && forall d :: g.loads(k, p, d, data[k]) ==> d == c
  }

  /**
   write copies the hash of p at one moment and its entry at a later one.  The row is warm if the
   hash did not change in between, as when p was looked up before, and only then if its values
   identify their content.
   */
  lemma WrittenRow(g: Setting, run: seq<State>, i: nat, j: nat, p: Path)
    requires InjectiveHash(g) && IsRun(g, run) && Warm(g, run[0]) && i <= j < |run| && p in run[j].entries
    ensures p in run[j].hashes && run[j].entries[p] in run[j].heap
    ensures var kept := p in run[i].hashes && run[i].hashes[p] == run[j].hashes[p];
      && (kept ==> WarmRow(g, run[i].hashes, p, Row(run[j], p)))
      && (HashIsCurrent(g, run[i], p) ==> kept)
      && (forall c :: g.hash(c) == run[j].hashes[p] && TellsApart(g, p, c, Row(run[j], p)) ==>
          (WarmRow(g, run[i].hashes, p, Row(run[j], p)) <==> kept))
  {
    MapsStayWarm(g, run, j);
    assert WarmRow(g, run[j].hashes, p, Row(run[j], p));
    if HashIsCurrent(g, run[i], p) {
      CurrentHashStays(g, run, i, j, p);
    }
  }

  /** The state after reading a cache file with these hashes and the entries of a state. */
  function Restarted(hashes: map<Path, Hash>, s: State): State {
    State(s.entries, s.heap, hashes, {}, map[0 := Idle], [], {})
  }

  /** The steps of a lookup that finds an empty entry, up to its return. */
  lemma StoringSteps(g: Setting, s: State, t: nat, p: Path, k: Key, c: Content, e: nat, v: Value)
    requires t in s.threads && e in s.heap && s.heap[e] == FileEntry(p, map[]) && g.loads(k, p, c, v)
    ensures Step(g, At(s, t, Probing(p, k, c, e)), At(s, t, Computing(p, k, c, e)), t)
    ensures Step(g, At(s, t, Computing(p, k, c, e)), At(s, t, Storing(p, k, c, e, v)), t)
    ensures var stored := s.(heap := s.heap[e := FileEntry(p, map[k := v])], returned := s.returned + [Call(p, k, v)]);
      Step(g, At(s, t, Storing(p, k, c, e, v)), At(stored, t, AfterCall(g, p)), t)
  {
  }

  lemma UnhashedEntryIsUnsound(g: Setting, s: State, p: Path, k: Key)
    requires p in s.entries && Linked(s, p, s.entries[p]) && p !in s.hashes && p in g.content
    requires k in Row(s, p) && !FreshCall(g, Call(p, k, Row(s, p)[k]))
    ensures !SoundStart(g, s)
  {
    assert !Fresh(g, s, s.entries[p]);
  }

  /**
   The first lookup of a path while the cache is written, between the two copies: its entry is
   written without a hash, and no start on a file with another value is sound.
   */
  lemma FirstLookupDuringWrite(g: Setting, p: Path, k: Key, v: Value) returns (run: seq<State>)
    requires !g.watching && p in g.content && g.loads(k, p, g.content[p], v)
    ensures IsRun(g, run) && Warm(g, run[0]) && p !in run[0].hashes
    ensures var last := run[|run| - 1]; p in last.entries && last.entries[p] in last.heap && Row(last, p) == map[k := v]
    ensures forall later: Setting :: p in later.content && !FreshCall(later, Call(p, k, v)) ==>
      !SoundStart(later, Restarted(run[0].hashes, run[|run| - 1]))
  {
    var c, s := g.content[p], State(map[], map[], map[], {}, map[0 := Idle], [], {});
    var linked := Published(g, s, p).(entries := map[p := 0], heap := map[0 := FileEntry(p, map[])]);
    var stored := linked.(heap := linked.heap[0 := FileEntry(p, map[k := v])], returned := linked.returned + [Call(p, k, v)]);
    StoringSteps(g, linked, 0, p, k, c, 0, v);
    run := LookedUp(g, s, 0, p, k);
    PathGoesOn(g, run, At(linked, 0, Probing(p, k, c, 0)), 0);
    run := run + [At(linked, 0, Probing(p, k, c, 0))];
    PathGoesOn(g, run, At(linked, 0, Computing(p, k, c, 0)), 0);
    run := run + [At(linked, 0, Computing(p, k, c, 0))];
    PathGoesOn(g, run, At(linked, 0, Storing(p, k, c, 0, v)), 0);
    run := run + [At(linked, 0, Storing(p, k, c, 0, v))];
    PathGoesOn(g, run, At(stored, 0, Idle), 0);
    run := run + [At(stored, 0, Idle)];
    forall later: Setting | p in later.content && !FreshCall(later, Call(p, k, v))
      ensures !SoundStart(later, Restarted(run[0].hashes, stored))
    {
      UnhashedEntryIsUnsound(later, Restarted(run[0].hashes, stored), p, k);
    }
  }
}
