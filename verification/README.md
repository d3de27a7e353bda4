# Verified models of aspect-gazelle

Dafny models of the parts of aspect-gazelle whose correctness is hard to see from one function at a
time, with proofs of what they promise. `dafny verify dfyconfig.toml` checks everything.

| module | what it models |
|---|---|
| `DiskCacheConcurrent` | concurrent calls of the disk cache and of the watch cache in front of it, each `sync.Map` or lock operation one atomic step; what is persisted meanwhile |
| `CacheSession` | the three layers of the file-analysis cache as classes, and whole sessions of edits, lookups, invalidations, persists and restarts |
| `Worker`, `Walk`, `WalkPlaces` | the worker pool and the parallel directory collector: goroutines, channels and WaitGroups as transition systems; which files are collected, under which paths |
| `IbpWire`, `Ibp` | the Incremental Bazel Protocol: server and client composed over two FIFO queues |
| `Glob`, `GlobSets` | the fast glob matchers against doublestar's semantics, the bucketed matcher, the cache of parsed patterns |
| `ParseCodec` | the parse-result format written in Rust and read in Go |
| `Paths`, `PathTexts`, `TsConfigs`, `TsConfigLoading` | relative paths as segments and as texts; tsconfig inheritance; loading of `extends` graphs, cycles included |
| `StarPatterns`, `Subpaths`, `ExpandPaths` | the ranking of keys with one `*`; package.json subpaths; tsconfig `paths` expansion |
| `DataFiles`, `DataClaims`, `RuleSources` | sharing files out between target groups; claiming imported data files in a shared slice; the files of each group's rule |
| `FindConfig` | the search for the nearest tsconfig, on the text of paths |
| `UpdatedDirs` | the nearest BUILD directories of changed files |
| `Bags`, `Sorting`, `Strings`, `Wrappers` | sums and bags over goroutines, sorting, string operations, result types |

The recurring form is a specification function or relation, a method that is proved to compute it
with the loops of the source, and lemmas about it. The class methods of `CacheSession` and
`TsConfigLoading` are each equal to a function on their state, and the session and graph theorems are
about those functions. A map whose keys Go visits in random order is visited by an arbitrary choice,
and a library sort is known only as some sorted permutation (`StarPatterns.SortEntries`), so results
that are functions of the input do not depend on either.

The reference that the glob matchers are compared with, `Glob.Matches`, is written from the
documentation of doublestar and the repository's glob tests, since the library is not part of this
model. What those do not settle is assumed: a final `**/` means what a final `**` means; an
alternative of a brace group stands at the start of a segment exactly when the group does; a `**`
glued to other text, as in `a**/`, is `*` twice, so that `a**/` matches no path without a final
slash; and only `/**` and `/**/` may be left over when the path is used up.

## Where the code falls short of the simple claim

Each is stated with the exact condition, with a concrete input, or with both.

- A run of concurrent calls returns current values only if every entry it starts with is current, or
  given away by its hash and not marked as verified (`DiskCacheConcurrent.FreshExactlyFromSoundStarts`).
  So an edit that nobody reports to a watch session is answered with the old value
  (`CacheSession.UnreportedEditIsAnsweredStale`).
- Persisting copies the hashes before the entries. A row written while calls are running is right if
  its hash did not change in between, as when its path was looked up before, and if its values tell
  their content apart only then (`DiskCacheConcurrent.WrittenRow`); a first lookup between the two
  copies is written without a hash (`DiskCacheConcurrent.FirstLookupDuringWrite`).
- The suffix check made before the general glob matcher rejects paths that the pattern matches when
  the suffix begins with the separator of a `**` that can match nothing.
  `Glob.FastIsExactUnlessSkipping` gives the condition in both directions; `**/**/foo` on `foo`, `*/**/`
  on `a` and `{**,a}/foo` on `foo` are `Glob.DoubleDirsReject`, `FinalDirsReject` and `BraceRejects`.
- Relative paths of a base configuration keep their location exactly when the extending directory
  does not lie further above the workspace root than the base (`Paths.RebaseKeepsAllLocations`).
- With several bases an inherited `baseUrl` keeps its location exactly under the condition of
  `TsConfigs.MergedBaseUrlLocation`; the "." of a base in `b` comes to mean the extending `a`
  (`TsConfigs.MergedBaseUrlMoves`).
- With several bases the last one decides `jsx` exactly if its value is not `none` or all are `none`
  (`TsConfigs.JsxOfLastBase`); a last `none` leaves the `react` before it (`TsConfigs.NoneDoesNotOverride`).
- `ExpandPaths` panics exactly when the prefix and suffix of a matching key that has targets overlap
  in the import (`ExpandPaths.Expand`), as for the key `a*a` and the import `a` (`ExpandPaths.SharedMiddlePanics`).
- `cleanJoin3` is documented as equivalent to `path.Join`. It is so exactly if there is some text and
  no "." is left out in front of a text that starts with a slash (`PathTexts.CleanJoinIsJoin`); of
  ".", "" and "/a" it makes "/a" and `path.Join` "a" (`PathTexts.LostDotDiffers`).
- A package.json specifier resolves as in Node.js exactly if it does not end in a slash or no key
  matches it (`Subpaths.ResolvesAsNode`); `#a/b/` with the key `#a/*` does not
  (`Subpaths.SlashSpecifierResolves`).
- A claimed data file leaves an empty string at the end of the caller's slice (`DataClaims.Claim`);
  no import names it (`DataClaims.BlankIsNotWanted`).
- A file that a BUILD file gives to a rule, by `# keep` or in a pinned list, is not taken from the
  others, so it belongs to one rule exactly under `RuleSources.OneGroupUnlessKept`: a `data.json` that
  the library keeps and the tests import belongs to both (`RuleSources.SharedDataHasTwoOwners`).
- A server call does not return while the consumer has stopped without closing the socket and has not
  seen its event; apart from failures that is the only case (`Ibp.CallsEnd`), and it is reached
  (`Ibp.StoppedConsumerAbandonsCall`).
- Two pattern lists can share a cache key if a pattern contains NUL (`GlobSets.NulCollides`). The
  answer is then the matcher of the list that asked first, which the contracts of `GlobSets.GlobCache`
  state for all patterns; without NUL every list has its own.
- Cycle ids are 1, 2, 3, … only below 2^31 cycles (`Ibp.WrapIsIdentity`); after that they follow the
  wrapped 32-bit counter.

## Model

| member | source | states |
|---|---|---|
| DiskCacheConcurrent.EveryReturnIsFresh | common/cache/disk.go:107-125 | under every interleaving of concurrent calls of the disk or the watch cache from a sound start, every returned value is one the loader computes on the current content |
| DiskCacheConcurrent.CallGoesOn | common/cache/disk.go:107-125 | no step drops a call: it gets nearer to its end, or ends with a value, a missing file or a failing loader |
| DiskCacheConcurrent.CallCanStep | common/cache/filecompute.go:151-191 | a call never waits for another thread |
| DiskCacheConcurrent.StepKeepsFreshness | common/cache/disk.go:114-124 | each atomic step keeps the invariant that rests on evicting before publishing the hash, looking up after it, and marking last |
| DiskCacheConcurrent.CallersAgree | common/cache/filecompute.go:151-191 | all callers for one path and key get the same value, if the path was not evicted or its stored hash was right |
| DiskCacheConcurrent.TrustedPathsAreNeverEvicted | common/cache/disk.go:116-122 | a path whose stored hash is that of its content is evicted on no schedule |
| DiskCacheConcurrent.FreshExactlyFromSoundStarts | common/cache/watch.go:45-58 | for every state before the first call: all its runs return current values only, if and only if each entry is current, or has another hash and no verified mark |
| DiskCacheConcurrent.NextCycleIsSound | common/cache/watch.go:60-69 | when a concurrent run of a watch session is over and the paths changed since are invalidated, the next run starts soundly |
| DiskCacheConcurrent.WarmIsSound | common/cache/disk.go:59-85 | loaded rows whose hash is that of the content they were computed from are sound whatever the files are now |
| DiskCacheConcurrent.MapsStayWarm | common/cache/disk.go:107-125 | at every moment of every run each entry has a stored hash, of a content its values were computed from |
| DiskCacheConcurrent.WrittenRow | common/cache/disk.go:87-105 | a row whose hash is copied before its entry is warm if the hash is still the same, which it is once the path was looked up, and for values that identify their content only then |
| DiskCacheConcurrent.FirstLookupDuringWrite | common/cache/disk.go:87-105 | a run in which the first lookup falls between the copies; the row has no hash, and no later start on a file with another value is sound |
| CacheSession.EveryLookupIsCurrent | common/cache/watch.go:45-76 | after any history of edits, lookups, invalidations, persists and restarts, a lookup answers exactly what the loader makes of the current file, and fails exactly if that does or the file is missing, unless a watch session answers for a path edited and not invalidated in this session |
| CacheSession.WatchCyclesAreCurrent | runner/runner.go:338-362 | when every cycle invalidates the paths it reports before running, all lookups of all cycles answer as without a cache |
| CacheSession.CycleLeavesNothingDirty | runner/runner.go:338-362 | after a cycle's invalidation, and through its lookups, no edited path is left unreported |
| CacheSession.RunKeepsInv | common/cache/filecompute.go:55-91 | entries, hashes, verified marks, the cache file and the files stay in step over every history |
| CacheSession.DiskLookupIsCurrent | common/cache/disk.go:107-125 | a disk lookup answers as without a cache whatever happened before, and leaves the maps sound |
| CacheSession.LookupIsRemembered | common/cache/disk.go:114-124 | while the file stays as it is, the next disk lookup gives the same value without the loader, also after persisting and restarting |
| CacheSession.LookupMakesRemembered | common/cache/disk.go:114-124 | every successful lookup, but the fast hit on an edited path, leaves the value under the current hash |
| CacheSession.RememberedUntilTouched | common/cache/disk.go:114-124 | from then on, through any lookups and through edits and invalidations of other paths, the value is answered without the loader, also by a new session that reads what was persisted then |
| CacheSession.WatchLookupIsRemembered | common/cache/watch.go:45-69 | a watch session keeps answering a looked-up path without any file, until that path itself is invalidated |
| CacheSession.UnreportedEditIsAnsweredStale | common/cache/watch.go:45-58 | an edit that is not invalidated is answered with the value of the old content |
| CacheSession.FileComputeCache.LoadOrStore | common/cache/filecompute.go:151-164 | returns and stores what the lookup function of the session model says |
| CacheSession.FileComputeCache.Invalidate | common/cache/filecompute.go:55-59 | exactly the entries of the given paths are removed |
| CacheSession.FileComputeCache.LoadEntries | common/cache/filecompute.go:69-73 | the given entries are added, replacing existing ones |
| CacheSession.FileComputeCache.SnapshotEntries | common/cache/filecompute.go:77-91 | the snapshot holds all entries, whatever the order of iteration |
| CacheSession.DiskCache.LoadOrStoreFile | common/cache/disk.go:107-125 | value and new maps are those of the disk lookup of the session model |
| CacheSession.DiskCache.Read | common/cache/disk.go:59-85 | entries and hashes of a readable cache file are loaded, otherwise nothing changes |
| CacheSession.DiskCache.Write | common/cache/disk.go:87-105 | what is persisted are exactly the entries and hashes |
| CacheSession.WatchCache.LoadOrStoreFile | common/cache/watch.go:45-58 | value and new maps are those of the watch lookup, including the fast path without file access |
| CacheSession.WatchCache.Invalidate | common/cache/watch.go:63-69 | all three maps lose exactly the given paths |
| CacheSession.WatchCache.InvalidateAll | common/cache/watch.go:72-76 | all three maps are emptied |
| Worker.EveryScheduleDeliversAllResults | common/worker.go:15-54 | every schedule is finite, stops only when the channel is drained, closes the results once and never sends after that, and delivers the bag of results of the inputs |
| Worker.SomeStepIsEnabled | common/worker.go:15-54 | no reachable state before the end is deadlocked |
| Worker.StepKeepsOrder | common/worker.go:29-53 | the WaitGroup counts the live workers, and the results are closed at most once and only after all workers left |
| Worker.StepConserves | common/worker.go:20-45 | values not fed, in flight or received always account for exactly the results of the inputs |
| Worker.StepDecreasesMeasure | common/worker.go:15-54 | every step takes one from a bound computed from the inputs |
| Walk.EveryScheduleCollectsAllFiles | common/walk.go:42-102 | every schedule is finite, stops only when the caller has returned, closes the channel once with no send after it, and the sorted result is that of a plain recursion stopping at BUILD directories |
| WalkPlaces.AllFilesAreReached | common/walk.go:79-102 | that result holds, once for each, the files reached from the root by following directory names through directories without a BUILD file, under those names and the file's joined by slashes |
| Walk.StepKeepsOrder | common/walk.go:50-74 | the WaitGroup equals the live goroutines and the channel is closed only when it is zero |
| Walk.StepConserves | common/walk.go:79-102 | files received, in flight and still owed by goroutines always account for exactly the files to collect |
| Walk.SomeStepIsEnabled | common/walk.go:42-102 | no reachable state before the return is deadlocked |
| Walk.SortForgetsOrder | common/walk.go:67-74 | the sorted list depends on the received files only as a bag |
| Walk.GatherFiles | common/walk.go:42-77 | the cached slice is returned as it is without subdirectories, else a fresh sorted one, and is never changed |
| Ibp.HandshakeAgrees | runner/pkg/ibp/protocol.go:279-348 | ends that finish the handshake hold the first offered version the client supports, and from version 1 on the same capabilities |
| Ibp.NoProtocolError | runner/pkg/ibp/protocol.go:420-455 | no run reaches a branch for an unexpected message, version, response kind or cycle id |
| Ibp.FailuresAreJustified | runner/pkg/ibp/client.go:45-66 | an end gives up only for a lost connection, no common version, capabilities asked for in version 0, or a request the server must refuse |
| Ibp.HandshakeSucceedsExactly | runner/pkg/ibp/protocol.go:279-348 | without a lost connection both ends come through the handshake if and only if there is a common version and the requested capabilities are fit for it |
| Ibp.CyclesArriveInOrder | runner/pkg/ibp/client.go:158-210 | the client sees the cycles that the server has sent, in order and unchanged, with ids 1, 2, 3, … below 2^31 |
| Ibp.EveryCallIsTold | runner/pkg/ibp/protocol.go:365-418 | the cycles, resets and exits sent are those called for while the server was ready, from version 2 on for resets, in order, each with its own changes, its scope from version 1 on, and its description |
| Ibp.ConsumerSeesCalls | runner/pkg/ibp/protocol.go:365-418 | the n-th event the consumer sees carries what the n-th cycle or reset was called with |
| Ibp.EachCycleIsAcknowledgedOnce | runner/pkg/ibp/client.go:170-203 | at every moment a client that has seen events has sent its handshake, exactly one STARTED and one COMPLETED for each finished event in order, and the STARTED of the event in work |
| Ibp.ReturnMeansFinished | runner/pkg/ibp/protocol.go:365-455 | a call that returned on COMPLETED is one whose event the consumer finished; when the server is ready again everything sent was finished |
| Ibp.CallsEnd | runner/pkg/ibp/protocol.go:365-455 | from every reachable state the two ends come to rest within a bounded number of actions, however they take turns; unless one failed, every call has then returned with its event finished if and only if the consumer had not stopped without seeing the last event |
| Ibp.SomeActionMoves | runner/pkg/ibp/client.go:158-210 | no other deadlock: while neither end has failed, not all is quiet, and no stopped consumer leaves the call waiting, some action of the two ends changes the state |
| Ibp.RestsExactly | runner/pkg/ibp/client.go:158-210 | with neither end failed nothing moves if and only if all is quiet or a stopped consumer leaves the call waiting |
| Ibp.StoppedConsumerAbandonsCall | runner/pkg/ibp/client.go:185-203 | a run whose consumer stops after the first cycle and leaves the second call waiting for good |
| Ibp.FourActionsPerCall | runner/pkg/ibp/protocol.go:420-455 | after a call made in quiet at most four actions follow |
| Ibp.NothingBeforeHandshake | runner/pkg/ibp/protocol.go:271-277 | cycles and exits are sent only after the whole handshake, no CYCLE_RESET below version 2, no scope in version 0 |
| Ibp.WrapIsIdentity | runner/pkg/ibp/protocol.go:168-169 | the 32-bit counter equals the number of cycles exactly below 2^31 |
| Ibp.AwaitCycleResponse | runner/pkg/ibp/protocol.go:420-455 | skips the STARTED messages of its cycle and ends with the first other one, normally exactly if that ends the cycle |
| Ibp.ServerAwaits | runner/pkg/ibp/protocol.go:420-455 | the server of the composed system goes through that loop, one received message a step |
| Ibp.AwaitCycle | runner/pkg/ibp/client.go:158-210 | the consumer gets exactly the cycles read, in order, each between its STARTED and its COMPLETED; reading stops when the consumer does |
| IbpWire.NegotiateVersion | runner/pkg/ibp/client.go:103-115 | the first offered number that is supported, or none; what is not a number is skipped |
| IbpWire.NegotiatesFirstCommon | runner/pkg/ibp/client.go:103-115 | on a list of versions sent as JSON numbers that is the first common version |
| IbpWire.ReadScopeCapList | runner/pkg/ibp/protocol.go:516-542 | exactly the non-empty lists of known scopes are accepted, and returned as they are |
| IbpWire.ReadCapsMap | runner/pkg/ibp/protocol.go:474-509 | in any map order: the defaults, overridden by what was requested, or the error of an invalid scope |
| IbpWire.CapsAreAsRequested | runner/pkg/ibp/protocol.go:474-542 | each requested capability is read as it is, otel as a bool, scope by default as runfiles, and nothing else is added; it fails exactly for a bad scope or what is no object |
| IbpWire.ReadingCapsIsIdempotent | runner/pkg/ibp/protocol.go:511-514 | reading capabilities that were read already gives them back |
| IbpWire.ReadCapsHaveScope | runner/pkg/ibp/protocol.go:196-204 | read capabilities always hold a valid scope list, by default runfiles only |
| IbpWire.WireKeepsEvent | runner/pkg/ibp/client.go:212-283 | converting the wire form of a cycle gives the event that was sent |
| Glob.FastIsExactUnlessSkipping | common/glob.go:50-101 | for every pattern, with classes that accept something: the fast matcher agrees with the reference on all paths if and only if the suffix does not begin with the separator of a `**` able to match nothing |
| Glob.FastIsExact | common/glob.go:50-101 | outside that condition it agrees on every path, also for patterns with escapes, classes and braces |
| Glob.PrefixDirIsExact | common/glob.go:57-63 | the matcher for a plain directory and everything below is the reference matcher |
| Glob.PrePostIsExact | common/glob.go:65-76 | the matcher for a plain prefix, any directories and a plain or starred suffix is the reference matcher; no index in it is out of range |
| Glob.PlainMatchesItself | common/glob.go:51-55 | a plain pattern matches itself only |
| Glob.PrefixCheckIsSound | common/glob.go:78-86 | the prefix check never rejects a path the pattern matches |
| Glob.SuffixCheckIsSound | common/glob.go:88-96 | nor does the suffix check, outside the skipping patterns |
| Glob.SkippedPath | common/glob.go:88-96 | every skipping pattern has a path that it matches and the suffix check rejects: the text after the separator, or a file below |
| Glob.DoubleDirsReject | common/glob.go:88-96 | `**/**/foo` matches `foo`, which is rejected |
| Glob.FinalDirsReject | common/glob.go:88-96 | `*/**/` matches `a`, which is rejected |
| Glob.BraceRejects | common/glob.go:88-96 | `{**,a}/foo` matches `foo`, which is rejected |
| Glob.FastAcceptsNoMore | common/glob.go:50-101 | the fast matcher never accepts more than the reference |
| GlobSets.FillBuckets | common/glob.go:158-278 | the buckets accept a path exactly when some pattern's own matcher does; it fails exactly when a pattern is invalid |
| GlobSets.AddAccepts | common/glob.go:166-188 | filing a pattern adds exactly what its own matcher accepts, though the shapes are tried in another order |
| GlobSets.JoinNulIsInjective | common/glob.go:141-143 | different lists of NUL-free patterns have different keys |
| GlobSets.NulCollides | common/glob.go:141-143 | with a NUL inside a pattern two keys collide and the matchers differ |
| GlobSets.GlobCache.ParseGlobExpression | common/glob.go:35-48 | for every text, cached or not, the answer is the matcher of the list its key was first stored for; that is the pattern's own unless another list took its key; every cached matcher stays the right one |
| GlobSets.GlobCache.ParseGlobExpressions | common/glob.go:132-156 | the same for lists, whose matcher accepts what some pattern accepts; an empty list, or an invalid pattern under a new key, is an error and stores nothing |
| GlobSets.GlobCache.ParseGlobExpressionsWithExcludes | common/glob.go:104-129 | a path passes when it matches an include, or there are only excludes, and no exclude: for the lists the keys were stored for, and for the given lists while all patterns are free of NUL |
| ParseCodec.DecodingInvertsEncoding | language/js/parser/parser.go:106-177 | decoding succeeds with a result exactly on the encoding of that result, with counts and lengths below 2^32 |
| ParseCodec.DecodingIsPrefixFree | language/js/parser/parser.go:106-140 | no proper prefix or extension of a buffer that decodes decodes |
| ParseCodec.ReadListInverse | language/js/parser/parser.go:156-177 | one list is read from a place exactly when its encoding stands there |
| ParseCodec.Encode | language/js/crates/js-parser/src/lib.rs:227-243 | the buffer is the format of the five lists |
| ParseCodec.BytesWeigh | language/js/crates/js-parser/src/lib.rs:227-243 | the first byte of a length is its lowest one |
| ParseCodec.ExampleBuffer | language/js/crates/js-parser/src/lib.rs:227-243 | the bytes of one buffer with one string in each list |
| ParseCodec.DecodeParseResult | language/js/parser/parser.go:106-140 | reads five lists and nothing after them, or fails |
| ParseCodec.ByteReader.StringList | language/js/parser/parser.go:156-177 | reads one list and moves behind it, or fails |
| Paths.RelLeadsToTarget | language/js/typescript/tsconfig.go:192-199 | following the relative path from the base leads to the target |
| Paths.RebaseKeepsAllLocations | language/js/typescript/tsconfig.go:192-199 | rebasing keeps every location if and only if the current directory does not lie further above the root; a failed relative path counts as "." |
| Paths.CleanJoin3IsJoin | language/js/typescript/tsconfig.go:757-770 | the single-clean join equals joining the three parts |
| PathTexts.CleanJoinIsJoin | language/js/typescript/tsconfig.go:755-770 | on texts it equals path.Join if and only if there is some text and no "." is left out in front of a text that starts with a slash |
| PathTexts.LostDotDiffers | language/js/typescript/tsconfig.go:755-770 | of ".", "" and "/a" it makes "/a" and path.Join "a" |
| PathTexts.CleanJoinMeans | language/js/typescript/tsconfig.go:757-770 | on texts that do not start with a slash its segments are the join of the three segment paths |
| TsConfigs.BuildPathsLocation | language/js/typescript/tsconfig.go:296-313 | explicit paths of a merged and extended configuration are at the location of the file's own, else of the last base that has some |
| TsConfigs.BuildRootLocations | language/js/typescript/tsconfig.go:315-326 | so are the rootDirs |
| TsConfigs.BuildSetting | language/js/typescript/tsconfig.go:207-256 | an option is the file's own value, else that of the last base that sets it |
| TsConfigs.BuildJsx | language/js/typescript/tsconfig.go:337-341 | the file's own jsx wins; among several bases the last one that is not none |
| TsConfigs.JsxOfLastBase | language/js/typescript/tsconfig.go:337-341 | among several bases the last one decides if and only if it is not none or all are none |
| TsConfigs.NoneDoesNotOverride | language/js/typescript/tsconfig.go:337-341 | a last base with none leaves the react of the one before |
| TsConfigs.MergedBaseUrlLocation | language/js/typescript/tsconfig.go:281-287 | with several bases the inherited baseUrl keeps its location if and only if it climbs to the same ancestor from both directories |
| TsConfigs.MergedBaseUrlMoves | language/js/typescript/tsconfig.go:281-287 | the baseUrl "." of the second base in `b` comes to mean the extending directory `a` |
| TsConfigs.SingleBaseUrlLocation | language/js/typescript/tsconfig.go:560-573 | with one base it always does |
| TsConfigs.BuildOwnBaseUrl | language/js/typescript/tsconfig.go:560-573 | a file's own baseUrl is taken as it is; with none anywhere it is the file's directory and counts as unset |
| TsConfigs.BuildKeepsUnsetEmpty | language/js/typescript/tsconfig.go:575-591 | without explicit paths anywhere there are no mappings |
| TsConfigLoading.OptionsAreInherited | language/js/typescript/tsconfig.go:448-526 | without cycles every option of a file is its own, else that of the last listed base whose resolved value is set |
| TsConfigLoading.PathsAreInherited | language/js/typescript/tsconfig.go:575-591 | through any chain of extends and merges, paths are looked up where the file they come from looks them up |
| TsConfigLoading.RootDirsAreInherited | language/js/typescript/tsconfig.go:593-605 | rootDirs are the directories meant by the file they come from |
| TsConfigLoading.SessionOpensOnce | language/js/typescript/tsconfig.go:348-373 | on every extends graph, cyclic or not, loading any files in any order opens each file at most once |
| TsConfigLoading.SessionIsResolved | language/js/typescript/tsconfig.go:348-436 | without cycles every slot holds what the file resolves to, whatever was loaded before |
| TsConfigLoading.SessionKeepsLocations | language/js/typescript/tsconfig.go:375-436 | on every graph, loaded paths and rootDirs are at the location meant by a file that gives them itself and is reached by a chain of extends |
| TsConfigLoading.RelativeExtendsIsGrounded | language/js/typescript/config.go:110-115 | a relative extends entry never leads further above the root, which the location results need |
| TsConfigLoading.TsConfigLoader.ParseFile | language/js/typescript/tsconfig.go:348-373 | terminates on every graph; slots and opened files change as the loading function says; a sentinel is no configuration and no error |
| TsConfigLoading.TsConfigLoader.ParseConfig | language/js/typescript/tsconfig.go:390-420 | collects the first loadable candidate of each entry and merges from the left |
| TsConfigLoading.TsConfigLoader.LoadBase | language/js/typescript/tsconfig.go:400-413 | the first candidate that loads; one holding the sentinel is skipped |
| StarPatterns.EqualRankNeverBothFit | language/js/node/package.go:125-127 | two keys of equal prefix and suffix length that match one text are the same key |
| Subpaths.ResolvesAsNode | language/js/node/package.go:82-102 | resolution is that of PACKAGE_IMPORTS_EXPORTS_RESOLVE if and only if the specifier does not end in a slash or neither an exact nor a pattern key matches it |
| Subpaths.SlashSpecifierResolves | language/js/node/package.go:82-102 | with the key `#a/*` the specifier `#a/b/` resolves, which Node.js refuses |
| Subpaths.ResolvesToBestMatch | language/js/node/package.go:82-102 | the exact entry, else the best pattern under PATTERN_KEY_COMPARE with its targets substituted, else nothing |
| Subpaths.MatchResolvesOneWay | language/js/node/package.go:109-139 | what a specifier resolves to is a function of the mappings alone |
| Subpaths.IndexIsUnique | language/js/node/package.go:128-139 | the pattern list depends neither on the map order nor on the sort |
| Subpaths.IndexSubpaths | language/js/node/package.go:105-142 | exact keys with sorted targets, and all single-star keys in rank order |
| Subpaths.PatternKeyHasOneStar | language/js/node/package.go:112-121 | the pattern keys are those with exactly one star |
| Subpaths.TargetsAreKept | language/js/node/package.go:110 | the targets of a key are all of its own, in byte order |
| Subpaths.ResolveSubpath | language/js/node/package.go:82-102 | the exact entry, else the first pattern that applies, substituted |
| Strings.ReplaceAllReplaces | language/js/node/package.go:92-98 | the substitution replaces every star and nothing else |
| Strings.ReplaceFirstReplaces | language/js/typescript/tsconfig.go:726 | the substitution of a tsconfig target replaces its first star and nothing else |
| Strings.LeqByFirstDifference | language/js/node/package.go:110 | the order of sorted texts is that of their first difference, prefixes first |
| ExpandPaths.Expand | language/js/typescript/tsconfig.go:682-753 | the expansion, from matches with the longest prefix first and of equal ones the longest suffix; panics if and only if a matching key with targets overlaps |
| ExpandPaths.ExpansionIsInBlocks | language/js/typescript/tsconfig.go:686-750 | the list is the exact targets, then one block for each matching key, the best first, with its targets in order and the matched text for their star, then the import below baseUrl unless relative, then below each rootDir |
| ExpandPaths.RelativeByFirstPart | language/js/typescript/tsconfig.go:181-187 | an import is relative if and only if its first part is "." or ".." |
| ExpandPaths.ExpansionIsUnique | language/js/typescript/tsconfig.go:696-715 | the whole list is a function of the configuration and the import |
| ExpandPaths.CollectMatches | language/js/typescript/tsconfig.go:696-715 | exactly the matching keys, each once, the longest prefix first and of equal ones the longest suffix |
| ExpandPaths.SharedMiddlePanics | language/js/typescript/tsconfig.go:717-730 | the key `a*a` and the import `a` |
| ExpandPaths.LooksUpBelowLocations | language/js/typescript/tsconfig.go:663-676 | targets are looked up at the location of the explicit paths that inheritance keeps, imports below the baseUrl |
| ExpandPaths.AbsoluteTargets | language/js/typescript/tsconfig.go:671-676 | an absolute target stays absolute if and only if the mappings are relative to the file's own directory |
| DataFiles.ClassifiesByLastTarget | language/js/generate.go:173-212 | the classifier gives the last target with a matching glob |
| DataFiles.ClassifierEntries | language/js/generate.go:180-197 | the entries of all targets, last target first |
| DataFiles.FileGroups.ShareOut | language/js/generate.go:232-294 | a group's sources are exactly the files that may be sources and are classified to it, its assets the others with it as asset group, and the data files are the rest in order |
| DataFiles.PlaceIs | language/js/generate.go:232-275 | a source group goes before an asset group |
| DataFiles.ExactlyOneSpot | language/js/generate.go:243-284 | every file of the disjoint lists is in exactly one source group, generated group, asset group or the data files |
| DataClaims.DeleteAt | language/js/generate.go:940-942 | what follows the deleted element moves down, the last place is cleared, the rest of the array stays |
| DataClaims.Claim | language/js/generate.go:922-945 | exactly the wanted files are claimed, never a blank, and the caller's slice holds the others followed by empty strings |
| DataClaims.ClaimedOnce | language/js/generate.go:929-945 | no file is claimed by two groups |
| DataClaims.BlankIsNotWanted | language/js/generate.go:1265-1306 | no collected import, a cleaned path or a URL, names the empty string in a clean package directory |
| DataClaims.JoinPkgIsPath | language/js/generate.go:1407-1413 | the import path of a file is the package path, a slash and the file, or in the root package the file |
| RuleSources.CreateRules | language/js/generate.go:312-391 | a group without walkable sources has no rule and claims nothing; every other rule has exactly the files found for it, listed by its BUILD file, or first imported by its sources; the shared slice ends up with the unclaimed files in order, padded |
| RuleSources.FindSources | language/js/generate.go:321-361 | the parsed sources are the walkable files of a pinned list, or those of the group and the kept walkable ones; a pinned rule takes no generated files |
| RuleSources.SourcesAreParsed | language/js/generate.go:321-363 | what is parsed are the regular files listed for the group or found as its sources; without any there is no rule |
| RuleSources.KeepSources | language/js/generate.go:338-357 | the sources of the group and the kept walkable files that are not generated |
| RuleSources.OneGroupUnlessKept | language/js/generate.go:312-391 | for every package, from how its files are shared out: a file belongs to at most one rule if and only if no BUILD list gives it to a rule while another rule is given it, finds it or is the first to import it |
| RuleSources.RulesShareNothing | language/js/generate.go:312-391 | the rules made share no file if and only if that holds of every file |
| RuleSources.SharedDataHasTwoOwners | language/js/generate.go:338-357 | a data file kept by the library and imported by the tests belongs to both |
| FindConfig.TsWorkspace.Find | language/js/typescript/config.go:134-195 | of all directories at or above the start, by text: the deepest with the group's config, else the deepest with the default one, else none; the anchor is the deepest with a package.json if that is at or below it |
| FindConfig.PlaceOnChain | language/js/typescript/config.go:178-191 | the climb visits every directory at or above the start |
| FindConfig.TsWorkspace.SetTsConfigFile | language/js/typescript/config.go:54-71 | the first file declared for a directory and group stays, all others unchanged |
| FindConfig.ChainClimbs | language/js/typescript/config.go:178-191 | on the directories visited, being at or below by text is the same as being visited earlier |
| UpdatedDirs.ComputeUpdatedDirs | runner/runner.go:388-407 | for any order of the files, without duplicates exactly the deepest directories above each file that have a BUILD file |
| UpdatedDirs.NearestIsDeepest | runner/runner.go:392-404 | the nearest directory is the deepest one at or above with a BUILD file |

## Left out

- File, socket, JSON, YAML, gob and regular-expression engines, hashing, logging and tracing: contents, directory listings, `hasBuildFile`, glob validity and the file-extension tests are given functions.
- The syntax tree walk of the JavaScript parser, tree-sitter wrappers, queries and Starlark evaluation.
- Gazelle's rule index, merger and walker, and the rule attributes set by `addProjectRule`.
- `runner/pkg/watchman` and `runner/pkg/git`, whose results are decided by an external daemon and by library code.
- DiskCacheConcurrent.WrittenRow: copying the values of one entry is one step, though the source finds the entry and then locks it.
- Freshness with a hash collision, a loader that is not a function of key, path and content, or a file that changes in the middle of a concurrent run.
- Consumers that abandon a channel before it is closed; sends after such a stop.
- The server and client of the protocol are transition functions on values, because each blocks on the other; only the two loops `Ibp.AwaitCycleResponse` and `Ibp.AwaitCycle` are methods, on the messages that arrive. Socket errors may end either side at any time, and a failed end is not restarted.
- Ibp.NoProtocolError: JSON numbers outside the 64-bit range are not modelled; version lists are integers.
- TsConfigLoading.SessionIsResolved: which candidate of an entry is taken inside an extends cycle depends on what was loaded before; the loading function says which, and no simpler reference is given.
- TsConfigs.BuildSetting: the individual option fields are one map from option name to value, holding a name exactly when the source's value is non-nil or its "set" flag is true.
- Absolute paths in tsconfig options and `${configDir}` substitution.
- ExpandPaths.LooksUpBelowLocations: a configuration directory, mapping directory or baseUrl that starts with a slash.
- Glob.FastIsExactUnlessSkipping: a class that accepts no character is excluded; no path matches through it.
- DataClaims.Claim: that import paths are cleaned or URLs and package directories are clean is taken from `toImportSpecPath` and Gazelle (`DataClaims.Collected`).
- RuleSources.CreateRules: the imports that parsing gives are a given function of a group and its sources; a rule error, which ends the generation, and which files end up in `assets` are not modelled.
- WalkPlaces.AllFilesAreReached: directory names are not empty.
- Null targets of package.json; keys with several stars are dropped as in the source.
- DataFiles.ClassifierEntries: substitution of the root directory variable in a glob is left to the given glob lists.
- FindConfig.TsWorkspace.Find: loading of a declared file is a given function here; `TsConfigLoading` models it.
- UpdatedDirs.ComputeUpdatedDirs: changed files are clean relative paths.
