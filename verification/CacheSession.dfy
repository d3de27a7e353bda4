/**
 The file-analysis cache as callers use it one call at a time: FileComputeCache
 (common/cache/filecompute.go), diskCache (common/cache/disk.go) and WatchCache
 (common/cache/watch.go), over whole sessions of edits, lookups, invalidations, persists and restarts.
 */
module CacheSession {
  import opened Wrappers

  type Path(==, !new)
  type Key(==, !new)
  type Content(==, !new)
  type Hash(==, !new)
  type Value(==, !new)

  type Row = map<Key, Value>
  type Files = map<Path, Content>

  /** The content hash, and what the loader registered for a key computes from a file. */
  datatype Setting = Setting(hash: Content -> Hash, load: (Key, Path, Content) -> Result<Value>)

  /** What a cache file holds: the diskCacheState. */
  datatype Saved = Saved(entries: map<Path, Row>, hashes: map<Path, Hash>)

  /** The maps of a live cache; a plain disk cache has no verified marks. */
  datatype Store = Store(entries: map<Path, Row>, hashes: map<Path, Hash>, verified: set<Path>)

  const EMPTY := Store(map[], map[], {})

  function FromSaved(saved: Option<Saved>): Store {
    match saved
    case None => EMPTY
    case Some(s) => Store(s.entries, s.hashes, {})
  }

  function RowOf(entries: map<Path, Row>, p: Path): Row {
    if p in entries then entries[p] else map[]
  }

  /******* What each operation does to the maps *******/

  function EntryLookup(g: Setting, entries: map<Path, Row>, p: Path, k: Key, c: Content): (map<Path, Row>, Result<Value>) {
    var row := RowOf(entries, p);
    if k in row then
      (entries, Ok(row[k]))
    else
      var v := g.load(k, p, c);
      (entries[p := if v.Ok? then row[k := v.value] else row], v)
  }

  function DiskLookup(g: Setting, st: Store, fs: Files, p: Path, k: Key): (Store, Result<Value>) {
    if p !in fs then
      (st, Err)
    else
      var h := g.hash(fs[p]);
      var kept := if p in st.hashes && st.hashes[p] != h then st.entries - {p} else st.entries;
      var (entries, v) := EntryLookup(g, kept, p, k, fs[p]);
      (st.(entries := entries, hashes := st.hashes[p := h]), v)
  }

  /** A watch session answers without any file access. */
  predicate FastHit(st: Store, p: Path, k: Key) {
    p in st.verified && k in RowOf(st.entries, p)
  }

  function WatchLookup(g: Setting, st: Store, fs: Files, p: Path, k: Key): (Store, Result<Value>) {
    if FastHit(st, p, k) then
      (st, Ok(RowOf(st.entries, p)[k]))
    else
      var (after, v) := DiskLookup(g, st, fs, p, k);
      (if v.Ok? then after.(verified := after.verified + {p}) else after, v)
  }

  function WatchInvalidate(st: Store, paths: set<Path>): Store {
    Store(st.entries - paths, st.hashes - paths, st.verified - paths)
  }

  /******* Sessions: the machine around the cache *******/

  datatype Mode = Disk | Watch

  /** The cache file writer may fail before truncating the file, or after. */
  datatype WriteOutcome = Written | Unopened | Truncated

  /** dirty holds the paths edited since this session last hashed or invalidated them. */
  datatype World = World(fs: Files, saved: Option<Saved>, mode: Mode, store: Store, dirty: set<Path>)

  datatype Event =
    | Edit(p: Path, content: Option<Content>)
    | Lookup(p: Path, k: Key)
    | Invalidate(paths: seq<Path>)
    | InvalidateAll
    | Persist(outcome: WriteOutcome)
    | Restart(mode: Mode, accepted: bool)

  function LookupIn(g: Setting, w: World, p: Path, k: Key): (Store, Result<Value>) {
    if w.mode.Watch? then WatchLookup(g, w.store, w.fs, p, k) else DiskLookup(g, w.store, w.fs, p, k)
  }

  function After(g: Setting, w: World, ev: Event): World {
    match ev
    case Edit(p, content) =>
      w.(fs := if content.Some? then w.fs[p := content.value] else w.fs - {p}, dirty := w.dirty + {p})
    case Lookup(p, k) =>
      var hashed := p in w.fs && !(w.mode.Watch? && FastHit(w.store, p, k));
      w.(store := LookupIn(g, w, p, k).0, dirty := if hashed then w.dirty - {p} else w.dirty)
    case Invalidate(paths) =>
      var ps := set p | p in paths;
      w.(store := if w.mode.Watch? then WatchInvalidate(w.store, ps) else w.store.(entries := w.store.entries - ps),
         dirty := w.dirty - ps)
    case InvalidateAll =>
      w.(store := if w.mode.Watch? then EMPTY else w.store.(entries := map[]), dirty := {})
    case Persist(outcome) =>
      (match outcome
       case Written => w.(saved := Some(Saved(w.store.entries, w.store.hashes)))
       case Unopened => w
       case Truncated => w.(saved := None))
    case Restart(mode, accepted) =>
      w.(mode := mode, store := FromSaved(if accepted then w.saved else None), dirty := {})
  }

  function Run(g: Setting, w: World, evs: seq<Event>): World
    decreases |evs|
  {
    if evs == [] then w else After(g, Run(g, w, evs[..|evs| - 1]), evs[|evs| - 1])
  }

  ghost predicate InjectiveHash(g: Setting) {
    forall c, d :: g.hash(c) == g.hash(d) ==> c == d
  }

  /** The row holds what the loader computes from one content, and h is the hash of that content. */
  ghost predicate SoundRow(g: Setting, p: Path, h: Hash, row: Row) {
    exists c :: g.hash(c) == h && forall k :: k in row ==> g.load(k, p, c) == Ok(row[k])
  }

  ghost predicate Sound(g: Setting, entries: map<Path, Row>, hashes: map<Path, Hash>) {
    forall p :: p in entries ==> p in hashes && SoundRow(g, p, hashes[p], entries[p])
  }

  /** The three maps in step with each other, with the cache file and with the files on disk. */
  ghost predicate Inv(g: Setting, w: World) {
    && Sound(g, w.store.entries, w.store.hashes)
    && (w.saved.Some? ==> Sound(g, w.saved.value.entries, w.saved.value.hashes))
    && (w.mode.Disk? ==> w.store.verified == {})
    && (forall p :: p in w.store.verified && p !in w.dirty ==>
          p in w.fs && p in w.store.hashes && w.store.hashes[p] == g.hash(w.fs[p]))
  }

  /** What the loader makes of the file as it is now, for a caller without any cache. */
  function Answer(g: Setting, fs: Files, p: Path, k: Key): Result<Value> {
    if p in fs then g.load(k, p, fs[p]) else Err
  }

  /** The loader computes v from the file as it is now. */
  predicate IsCurrent(g: Setting, fs: Files, p: Path, k: Key, v: Value) {
    p in fs && g.load(k, p, fs[p]) == Ok(v)
  }

  lemma SoundRowIsCurrent(g: Setting, fs: Files, p: Path, row: Row)
    requires InjectiveHash(g) && p in fs && SoundRow(g, p, g.hash(fs[p]), row)
    ensures forall k :: k in row ==> IsCurrent(g, fs, p, k, row[k])
  {}

  lemma EmptyRowIsSound(g: Setting, p: Path, c: Content)
    ensures SoundRow(g, p, g.hash(c), map[])
  {
    assert g.hash(c) == g.hash(c);
  }

  /** The disk path re-hashes the file: it answers as without a cache, whatever happened before. */
  lemma DiskLookupIsCurrent(g: Setting, st: Store, fs: Files, p: Path, k: Key)
    requires InjectiveHash(g) && Sound(g, st.entries, st.hashes)
    ensures var (after, r) := DiskLookup(g, st, fs, p, k);
      && Sound(g, after.entries, after.hashes)
      && r == Answer(g, fs, p, k)
      && (p in fs ==> p in after.hashes && after.hashes[p] == g.hash(fs[p]))
      && (forall q :: q != p ==> (q in after.hashes <==> q in st.hashes) && (q in st.hashes ==> after.hashes[q] == st.hashes[q]))
  {
    if p in fs {
      var h := g.hash(fs[p]);
      var kept := if p in st.hashes && st.hashes[p] != h then st.entries - {p} else st.entries;
      var row := RowOf(kept, p);
      assert SoundRow(g, p, h, row) by {
        if p !in kept {
          EmptyRowIsSound(g, p, fs[p]);
        }
      }
      SoundRowIsCurrent(g, fs, p, row);
      var (after, r) := DiskLookup(g, st, fs, p, k);
      forall q | q in after.entries ensures q in after.hashes && SoundRow(g, q, after.hashes[q], after.entries[q]) {
        if q == p {
          assert g.hash(fs[p]) == h && forall k :: k in after.entries[p] ==> g.load(k, p, fs[p]) == Ok(after.entries[p][k]);
        }
      }
    }
  }

  /**
   A successful lookup is remembered: while the file stays as it is, the next disk lookup gives the same
   value without the loader (other may load differently), also after persisting and restarting.
   */
  lemma LookupIsRemembered(g: Setting, other: Setting, st: Store, fs: Files, p: Path, k: Key)
    requires p in fs && other.hash(fs[p]) == g.hash(fs[p]) && DiskLookup(g, st, fs, p, k).1.Ok?
    ensures var (after, r) := DiskLookup(g, st, fs, p, k);
      && DiskLookup(other, after, fs, p, k) == (after, r)
      && DiskLookup(other, FromSaved(Some(Saved(after.entries, after.hashes))), fs, p, k).1 == r
  {
    var (after, r) := DiskLookup(g, st, fs, p, k);
    assert after.hashes[p] == g.hash(fs[p]) && k in RowOf(after.entries, p);
    assert after.(hashes := after.hashes[p := g.hash(fs[p])]) == after;
  }

  /** The row of p holds v, under the hash of the file as it is. */
  predicate Remembers(g: Setting, w: World, p: Path, k: Key, v: Value) {
    && p in w.fs && p in w.store.hashes && w.store.hashes[p] == g.hash(w.fs[p])
    && p in w.store.entries && k in w.store.entries[p] && w.store.entries[p][k] == v
  }

  /** An event that neither changes the file p, nor drops its row, nor starts a new session. */
  predicate LeavesAlone(ev: Event, p: Path) {
    match ev
    case Edit(q, _) => q != p
    case Lookup(_, _) => true
    case Invalidate(paths) => p !in paths
    case InvalidateAll => false
    case Persist(_) => true
    case Restart(_, _) => false
  }

  lemma EventLeavesRemembered(g: Setting, w: World, ev: Event, p: Path, k: Key, v: Value)
    requires Remembers(g, w, p, k, v) && LeavesAlone(ev, p)
    ensures Remembers(g, After(g, w, ev), p, k, v)
  {
  }

  lemma RememberedIsAnswered(g: Setting, other: Setting, w: World, p: Path, k: Key, v: Value, mode: Mode)
    requires Remembers(g, w, p, k, v) && other.hash == g.hash
    ensures LookupIn(other, w, p, k).1 == Ok(v)
    ensures LookupIn(other, After(g, After(g, w, Persist(Written)), Restart(mode, true)), p, k).1 == Ok(v)
  {
  }

  /**
   Lookups of whatever files and edits and invalidations of others do not cost p its value: the next
   lookup gives it without the loader, also when what was persisted then is read by a new session.
   */
  lemma {:induction false} RememberedUntilTouched(
      g: Setting, other: Setting, w: World, evs: seq<Event>, p: Path, k: Key, v: Value, mode: Mode)
    requires Remembers(g, w, p, k, v) && other.hash == g.hash && forall ev :: ev in evs ==> LeavesAlone(ev, p)
    ensures Remembers(g, Run(g, w, evs), p, k, v)
    ensures LookupIn(other, Run(g, w, evs), p, k).1 == Ok(v)
    ensures LookupIn(other, After(g, After(g, Run(g, w, evs), Persist(Written)), Restart(mode, true)), p, k).1 == Ok(v)
    decreases |evs|
  {
    if evs != [] {
      var front, last := evs[..|evs| - 1], evs[|evs| - 1];
      RememberedUntilTouched(g, other, w, front, p, k, v, mode);
      assert last in evs;
      EventLeavesRemembered(g, Run(g, w, front), last, p, k, v);
    }
    RememberedIsAnswered(g, other, Run(g, w, evs), p, k, v, mode);
  }

  /** Every successful lookup does so, but the fast hit on a path edited and not reported. */
  lemma LookupMakesRemembered(g: Setting, w: World, p: Path, k: Key)
    requires InjectiveHash(g) && Inv(g, w) && LookupIn(g, w, p, k).1.Ok?
    requires !(w.mode.Watch? && FastHit(w.store, p, k) && p in w.dirty)
    ensures Remembers(g, After(g, w, Lookup(p, k)), p, k, LookupIn(g, w, p, k).1.value)
  {
  }

  /** A watch session goes on answering it without any file, until the path itself is invalidated. */
  lemma WatchLookupIsRemembered(g: Setting, other: Setting, st: Store, fs: Files, now: Files, p: Path, k: Key, paths: set<Path>)
    requires WatchLookup(g, st, fs, p, k).1.Ok? && p !in paths
    ensures var (after, r) := WatchLookup(g, st, fs, p, k);
      WatchLookup(other, WatchInvalidate(after, paths), now, p, k) == (WatchInvalidate(after, paths), r)
  {
    var (after, r) := WatchLookup(g, st, fs, p, k);
    assert FastHit(after, p, k) && RowOf(after.entries, p)[k] == r.value;
  }

  lemma AfterKeepsInv(g: Setting, w: World, ev: Event)
    requires InjectiveHash(g) && Inv(g, w)
    ensures Inv(g, After(g, w, ev))
  {
    if ev.Lookup? {
      DiskLookupIsCurrent(g, w.store, w.fs, ev.p, ev.k);
    }
  }

  lemma {:induction false} RunKeepsInv(g: Setting, w: World, evs: seq<Event>)
    requires InjectiveHash(g) && Inv(g, w)
    ensures Inv(g, Run(g, w, evs))
    decreases |evs|
  {
    if evs != [] {
      RunKeepsInv(g, w, evs[..|evs| - 1]);
      AfterKeepsInv(g, Run(g, w, evs[..|evs| - 1]), evs[|evs| - 1]);
    }
  }

  ghost predicate Start(w: World) {
    w.saved == None && w.store == EMPTY && w.dirty == {}
  }

  /**
   After any history of edits, lookups, invalidations, persists and restarts, a lookup returns
   exactly what the loader makes of the current file, failures included, unless a watch session
   answers from an entry whose path was edited in this session and not invalidated since.
   */
  lemma EveryLookupIsCurrent(g: Setting, w: World, evs: seq<Event>, p: Path, k: Key)
    requires InjectiveHash(g) && Start(w)
    ensures var now := Run(g, w, evs);
      !(now.mode.Watch? && FastHit(now.store, p, k) && p in now.dirty) ==>
        LookupIn(g, now, p, k).1 == Answer(g, now.fs, p, k)
  {
    RunKeepsInv(g, w, evs);
    var now := Run(g, w, evs);
    DiskLookupIsCurrent(g, now.store, now.fs, p, k);
    if FastHit(now.store, p, k) && p !in now.dirty {
      SoundRowIsCurrent(g, now.fs, p, now.store.entries[p]);
    }
  }

  /** The exception is real: an edit that no Invalidate reports is answered with the old value. */
  lemma UnreportedEditIsAnsweredStale(g: Setting, p: Path, k: Key, before: Content, now: Content)
    requires g.load(k, p, before).Ok? && g.load(k, p, now) != g.load(k, p, before)
    ensures var w := World(map[p := before], None, Watch, EMPTY, {});
      var edited := Run(g, w, [Lookup(p, k), Edit(p, Some(now))]);
      var r := LookupIn(g, edited, p, k).1;
      Start(w) && r.Ok? && !IsCurrent(g, edited.fs, p, k, r.value)
  {
    var w := World(map[p := before], None, Watch, EMPTY, {});
    var evs := [Lookup(p, k), Edit(p, Some(now))];
    assert evs[..1] == [Lookup(p, k)] && evs[..1][..0] == [];
    assert Run(g, w, []) == w;
    assert Run(g, w, evs[..1]) == After(g, w, Lookup(p, k));
  }

  /******* Watch cycles (runner/runner.go): invalidate what the message reports, then run *******/

  datatype Cycle = Cycle(edits: seq<(Path, Option<Content>)>, reported: Option<seq<Path>>, lookups: seq<(Path, Key)>)

  /** A CYCLE message reports paths; a CYCLE_RESET reports none and drops everything. */
  function CycleEvents(c: Cycle): seq<Event> {
    seq(|c.edits|, i requires 0 <= i < |c.edits| => Edit(c.edits[i].0, c.edits[i].1))
    + [if c.reported.Some? then Invalidate(c.reported.value) else InvalidateAll]
    + seq(|c.lookups|, i requires 0 <= i < |c.lookups| => Lookup(c.lookups[i].0, c.lookups[i].1))
  }

  ghost predicate ReportsItsEdits(c: Cycle) {
    c.reported.Some? ==> forall e :: e in c.edits ==> e.0 in c.reported.value
  }

  function EventsOf(cycles: seq<Cycle>): seq<Event> {
    if cycles == [] then [] else EventsOf(cycles[..|cycles| - 1]) + CycleEvents(cycles[|cycles| - 1])
  }

  lemma {:induction false} RunSplits(g: Setting, w: World, a: seq<Event>, b: seq<Event>)
    ensures Run(g, w, a + b) == Run(g, Run(g, w, a), b)
    decreases |b|
  {
    if b == [] {
      assert a + b == a;
    } else {
      var ab := a + b;
      assert ab[..|ab| - 1] == a + b[..|b| - 1] && ab[|ab| - 1] == b[|b| - 1];
      RunSplits(g, w, a, b[..|b| - 1]);
    }
  }

  lemma {:induction false} EditsDirtyTheirPaths(g: Setting, w: World, evs: seq<Event>)
    requires forall ev :: ev in evs ==> ev.Edit?
    ensures Run(g, w, evs).dirty == w.dirty + set ev | ev in evs :: ev.p
    decreases |evs|
  {
    if evs != [] {
      EditsDirtyTheirPaths(g, w, evs[..|evs| - 1]);
      assert evs == evs[..|evs| - 1] + [evs[|evs| - 1]];
    }
  }

  lemma {:induction false} LookupsDirtyNothing(g: Setting, w: World, evs: seq<Event>)
    requires w.dirty == {} && forall ev :: ev in evs ==> ev.Lookup?
    ensures Run(g, w, evs).dirty == {}
    decreases |evs|
  {
    if evs != [] {
      LookupsDirtyNothing(g, w, evs[..|evs| - 1]);
      assert evs[|evs| - 1] in evs;
    }
  }

  /** Once a cycle has invalidated what it reports, and until the next edit, no path is dirty. */
  lemma CycleLeavesNothingDirty(g: Setting, w: World, c: Cycle, n: nat)
    requires w.dirty == {} && ReportsItsEdits(c) && n <= |c.lookups|
    ensures Run(g, w, CycleEvents(c)[..|c.edits| + 1 + n]).dirty == {}
  {
    var evs := CycleEvents(c);
    var edits, reset, lookups := evs[..|c.edits|], evs[|c.edits|], evs[|c.edits| + 1..|c.edits| + 1 + n];
    assert evs[..|c.edits| + 1 + n] == edits + [reset] + lookups;
    RunSplits(g, w, edits + [reset], lookups);
    InvalidationLeavesNothingDirty(g, w, c);
    LookupsDirtyNothing(g, Run(g, w, edits + [reset]), lookups);
  }

  lemma InvalidationLeavesNothingDirty(g: Setting, w: World, c: Cycle)
    requires w.dirty == {} && ReportsItsEdits(c)
    ensures Run(g, w, CycleEvents(c)[..|c.edits|] + [CycleEvents(c)[|c.edits|]]).dirty == {}
  {
    var evs := CycleEvents(c);
    var edits, reset := evs[..|c.edits|], evs[|c.edits|];
    EditsDirtyTheirPaths(g, w, edits);
    var edited := Run(g, w, edits);
    assert (edits + [reset])[..|edits|] == edits;
    forall p | p in edited.dirty ensures c.reported.Some? ==> p in c.reported.value {
      var i :| 0 <= i < |c.edits| && evs[i].p == p;
      assert c.edits[i] in c.edits;
    }
  }

  lemma {:induction false} CyclesLeaveNothingDirty(g: Setting, w: World, cycles: seq<Cycle>)
    requires w.dirty == {} && forall c :: c in cycles ==> ReportsItsEdits(c)
    ensures Run(g, w, EventsOf(cycles)).dirty == {}
    decreases |cycles|
  {
    if cycles != [] {
      var c := cycles[|cycles| - 1];
      CyclesLeaveNothingDirty(g, w, cycles[..|cycles| - 1]);
      RunSplits(g, w, EventsOf(cycles[..|cycles| - 1]), CycleEvents(c));
      CycleLeavesNothingDirty(g, Run(g, w, EventsOf(cycles[..|cycles| - 1])), c, |c.lookups|);
      assert CycleEvents(c)[..|c.edits| + 1 + |c.lookups|] == CycleEvents(c);
    }
  }

  /** In a watch session whose cycles report every edit, all lookups of every cycle are current. */
  lemma WatchCyclesAreCurrent(g: Setting, w: World, cycles: seq<Cycle>, c: Cycle, n: nat, p: Path, k: Key)
    requires InjectiveHash(g) && Start(w) && n <= |c.lookups|
    requires ReportsItsEdits(c) && forall d :: d in cycles ==> ReportsItsEdits(d)
    ensures var now := Run(g, w, EventsOf(cycles) + CycleEvents(c)[..|c.edits| + 1 + n]);
      LookupIn(g, now, p, k).1 == Answer(g, now.fs, p, k)
  {
    var before, evs := EventsOf(cycles), CycleEvents(c)[..|c.edits| + 1 + n];
    RunSplits(g, w, before, evs);
    CyclesLeaveNothingDirty(g, w, cycles);
    CycleLeavesNothingDirty(g, Run(g, w, before), c, n);
    EveryLookupIsCurrent(g, w, before + evs, p, k);
  }

  /******* The classes *******/

  class FileComputeCache {
    var entries: map<Path, Row>

    constructor ()
      ensures entries == map[]
    {
      entries := map[];
    }

    method Invalidate(paths: seq<Path>)
      modifies this
      ensures entries == old(entries) - (set p | p in paths)
    {
      for i := 0 to |paths|
        invariant entries == old(entries) - (set p | p in paths[..i])
      {
        entries := entries - {paths[i]};
      }
      assert paths[..|paths|] == paths;
    }

    method InvalidateAll()
      modifies this
      ensures entries == map[]
    {
      entries := map[];
    }

    /** Iterates in whatever order the map yields its keys. */
    method LoadEntries(m: map<Path, Row>)
      modifies this
      ensures entries == old(entries) + m
    {
      var todo := m.Keys;
      while todo != {}
        invariant todo <= m.Keys
        invariant entries == old(entries) + map p | p in m.Keys - todo :: m[p]
        decreases |todo|
      {
        var p :| p in todo;
        entries := entries[p := m[p]];
        todo := todo - {p};
      }
    }

    method SnapshotEntries() returns (m: map<Path, Row>)
      ensures m == entries
    {
      m := map[];
      var todo := entries.Keys;
      while todo != {}
        invariant todo <= entries.Keys
        invariant m == map p | p in entries.Keys - todo :: entries[p]
        decreases |todo|
      {
        var p :| p in todo;
        m := m[p := entries[p]];
        todo := todo - {p};
      }
    }

    method LoadOrStore(g: Setting, p: Path, k: Key, c: Content) returns (r: Result<Value>)
      modifies this
      ensures (entries, r) == EntryLookup(g, old(entries), p, k, c)
    {
      if p !in entries {
        entries := entries[p := map[]];
      }
      if k in entries[p] {
        return Ok(entries[p][k]);
      }
      r := g.load(k, p, c);
      if r.Ok? {
        entries := entries[p := entries[p][k := r.value]];
      }
      var row := RowOf(old(entries), p);
      assert entries == old(entries)[p := if r.Ok? then row[k := r.value] else row];
    }
  }

  class DiskCache {
    const base: FileComputeCache
    var contentHashes: map<Path, Hash>

    ghost function View(): Store
      reads this, base
    {
      Store(base.entries, contentHashes, {})
    }

    /** NewDiskCache: an unreadable or foreign cache file counts as none. */
    constructor (saved: Option<Saved>)
      ensures fresh(base) && View() == FromSaved(saved)
    {
      base := new FileComputeCache();
      contentHashes := map[];
      new;
      Read(saved);
    }

    method Read(saved: Option<Saved>)
      modifies this, base
      ensures saved.None? ==> View() == old(View())
      ensures saved.Some? ==> View() == Store(old(base.entries) + saved.value.entries, old(contentHashes) + saved.value.hashes, {})
    {
      if saved.Some? {
        base.LoadEntries(saved.value.entries);
        LoadHashes(saved.value.hashes);
      }
    }

    method LoadHashes(hashes: map<Path, Hash>)
      modifies this
      ensures contentHashes == old(contentHashes) + hashes
    {
      var todo := hashes.Keys;
      while todo != {}
        invariant todo <= hashes.Keys
        invariant contentHashes == old(contentHashes) + map p | p in hashes.Keys - todo :: hashes[p]
        decreases |todo|
      {
        var p :| p in todo;
        contentHashes := contentHashes[p := hashes[p]];
        todo := todo - {p};
      }
    }

    /** The state that Persist hands to the cache file writer. */
    method Write() returns (s: Saved)
      ensures s == Saved(base.entries, contentHashes)
    {
      var hashes: map<Path, Hash> := map[];
      var todo := contentHashes.Keys;
      while todo != {}
        invariant todo <= contentHashes.Keys
        invariant hashes == map p | p in contentHashes.Keys - todo :: contentHashes[p]
        decreases |todo|
      {
        var p :| p in todo;
        hashes := hashes[p := contentHashes[p]];
        todo := todo - {p};
      }
      var entries := base.SnapshotEntries();
      s := Saved(entries, hashes);
    }

    method LoadOrStoreFile(g: Setting, fs: Files, p: Path, k: Key) returns (r: Result<Value>)
      modifies this, base
      ensures (View(), r) == DiskLookup(g, old(View()), fs, p, k)
    {
      if p !in fs {
        return Err;
      }
      var content := fs[p];
      var contentHash := g.hash(content);
      if p in contentHashes && contentHashes[p] != contentHash {
        base.Invalidate([p]);
        assert (set q | q in [p]) == {p};
      }
      contentHashes := contentHashes[p := contentHash];
      r := base.LoadOrStore(g, p, k, content);
    }
  }

  class WatchCache {
    const disk: DiskCache
    var verified: set<Path>

    ghost function View(): Store
      reads this, disk, disk.base
    {
      disk.View().(verified := verified)
    }

    constructor (saved: Option<Saved>)
      ensures fresh(disk) && fresh(disk.base) && View() == FromSaved(saved)
    {
      disk := new DiskCache(saved);
      verified := {};
    }

    method LoadOrStoreFile(g: Setting, fs: Files, p: Path, k: Key) returns (r: Result<Value>)
      modifies this, disk, disk.base
      ensures (View(), r) == WatchLookup(g, old(View()), fs, p, k)
    {
      if p in verified {
        if p in disk.base.entries {
          if k in disk.base.entries[p] {
            return Ok(disk.base.entries[p][k]);
          }
        }
      }
      r := disk.LoadOrStoreFile(g, fs, p, k);
      if r.Ok? {
        verified := verified + {p};
      }
    }

    method Invalidate(paths: seq<Path>)
      modifies this, disk, disk.base
      ensures View() == WatchInvalidate(old(View()), set p | p in paths)
      ensures var ps := set p | p in paths;
        && disk.base.entries == old(disk.base.entries) - ps
        && disk.contentHashes == old(disk.contentHashes) - ps
        && verified == old(verified) - ps
    {
      disk.base.Invalidate(paths);
      for i := 0 to |paths|
        invariant disk.base.entries == old(disk.base.entries) - (set p | p in paths)
        invariant disk.contentHashes == old(disk.contentHashes) - (set p | p in paths[..i])
        invariant verified == old(verified) - (set p | p in paths[..i])
      {
        disk.contentHashes := disk.contentHashes - {paths[i]};
        verified := verified - {paths[i]};
      }
      assert paths[..|paths|] == paths;
    }

    method InvalidateAll()
      modifies this, disk, disk.base
      ensures View() == EMPTY
    {
      disk.base.InvalidateAll();
      disk.contentHashes := map[];
      verified := {};
    }
  }
}
