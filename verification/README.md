# Verified model of the forge dashboard

A Dafny model of the parts of this repository whose behaviour is hardest to see from the code:
the runtime shim between Go and JavaScript, the background refresher and its cache, the
terminal tunnel, the host-key store, and the discovery and aggregation behind the pages.
`dafny verify dfyconfig.toml` checks all of it.

## What is modelled

**The reference table of `wasm_exec.js`.** `Memory` has the byte-level codecs (little-endian words,
the split 64-bit integer, doubles as pairs of 32-bit halves), `RefTable` the table of JavaScript values that Go
refers to, as a value with its operations `Store` and `Finalize` and theorems over all runs, and
`GoRuntime` the object that updates its fields and its memory in place, each method tied to the table.
`held` is the multiset of references that Go holds; it is Go's account, not computed from the
table. `ArgvLayout` and `Environment` are the argument-passing part of `run`, on bytes and on JavaScript strings.

**The refresher.** `Cache` and `Refresh` are the sequential part: one refresh, what it leaves in the cache,
and what the pages show from it, over a `World` that says what discovery and git answer (a missing key is
a failing call). `RefreshProtocol` is the concurrent part, a transition system with a scheduler, any number of
workers, the queue of capacity 100, the `done` channel, the wait group and `Stop`.
An event is one action of one goroutine; ticks are events that may come at any moment. `Rivals` has two workspaces
with one cache key, `LostUpdates` two workers with one workspace.

**The terminal tunnel.** `Streams` has the two buffered readers and the framing writer. A `Turn` is one
wait in a select, with everything the browser does around it, so statements for all turns are statements for all
interleavings. `Bridge` is the proxy's pair of copiers with its closing hand-shake, `Session` the
life of `Start` and `Stop`, and `Tunnel` composes `Write`, `bridge` and `Read`.

**The key store.** `HostKeys` has the upserted lists of the store and the trust-on-first-use callback.

**Discovery and pages.** `Discovery` walks a directory tree that does not change; `Partition` proves what it promises,
and `TreeWorld` says what the refresher is told of a tree.
`Stages` and `HeatMap` are the test reports, `Portfolios` and `PortfolioPages` the portfolio pages,
`WorkspacePage`, `ForgePage` and `Recent` the others. `EndToEnd` joins discovery, refresher, cache and pages.
`Ordering` has `sort.Slice`: callers learn that the result is sorted and a permutation, nothing of ties.

## Where the code differs from what one might expect

- `setInt64` floors its high word but truncates its low word. On negative fractions `getInt64` does not give
  the floor: `Int64RoundTrip` is the exact condition, `NegativeFractionIsMisread` an input.
- The comment in `Start` says that closing the session unblocks the other goroutine. It does not when that
  goroutine waits for a key: `StartCanBeStuck` is a run, `ReturnsJustWithoutWaiting` the exact condition, and
  `StartReturnsOnceTerminalCloses` says that closing the terminal frees it.
- `readChunk` may report a close while data is queued: `CloseOvertakesChunk` is an input, `ReadsAreSafeJustWhenOpen` the
  exact condition. A rejected promise loses its chunk, and only that: `BrokenPromiseCostsItsChunk`.
- A listed directory named `default` collides with the catch-all portfolio. In the cache key `NamedDefaultCollides` is an
  input. `AgreesJustForOwners`, and `ListPageIsLive` over a tree, are the exact conditions right after the initial refresh;
  `LiveJustWithoutRivals`, and `EndToEnd.LiveAtAllTimes` over a tree, those for the running refresher, when a loose
  workspace can be shown wrong too. `PageBaseAgrees`, `ListedIsFound` and `LinksLeadBack` are the conditions for the base
  directory, `Get` and links.
- A worker may write what it asked git before another worker's later write: `UpdateIsLost` is a run,
  `RightForGoodJustWithoutStaleScans` the exact condition.
- `SaveHost` replaces the first entry of a name while the callback reads the last one. They agree if and only if the
  name occurs at most once, or already had the new value (`UpsertHere`); names stay unique, so the difference never shows.
- `LatestIsOneAnswer` rests on the loader's sort: the scans take the first report of a stage, whatever its time. Each page
  loads the reports again, and ties are left open: `LoadsAgreeJustWithoutTies` is the exact condition for one answer.

## Model

| member | source | states |
|---|---|---|
| `Memory.SetUint32` | web/wasm_exec.js:120-121 | writes the low 32 bits of any integer, least byte first, and no other byte |
| `Memory.SetInt64` | web/wasm_exec.js:119-122 | both words of any real: the low one truncated modulo 2^32, the high one the floor of the quotient, which underflows to zero for tiny negatives |
| `Memory.Int64IsTwosComplement` | web/wasm_exec.js:119-122 | the eight bytes written for an integer of the int64 range are its two's complement, least byte first |
| `Memory.Int64ReadBack` | web/wasm_exec.js:119-132 | what `getInt64` reads after `setInt64`, for every real in the int64 range: the floor, or for negative fractions one of two wrong answers, and which |
| `Memory.Int64RoundTrip` | web/wasm_exec.js:119-132 | it is the floor if and only if the value is not a negative fraction: the identity on integers, the floor for `walltime` |
| `Memory.NegativeFractionIsMisread` | web/wasm_exec.js:119-132 | a concrete value that is read back wrong by 2^32 |
| `Memory.DoubleReadBack` | web/wasm_exec.js:135-140 | a stored double is read back bit for bit, its low half at the address and its high half after it |
| `Memory.NaNPatterns` | web/wasm_exec.js:136-141 | the bit patterns that are no number, as ranges of the high half |
| `RefTable.StartInv` | web/wasm_exec.js:485-503 | the set-up in `run` satisfies the table invariant |
| `RefTable.StepKeepsInv` | web/wasm_exec.js:147-195 | every store and every legal finalization keeps the table invariant |
| `RefTable.SlotKinds` | web/wasm_exec.js:165-175 | in every reachable state a slot is pinned, or live, counted and indexed, or free and in the pool exactly once; the index is a bijection onto the pinned slots but NaN's and the live ones |
| `RefTable.LoadUndoesStore` | web/wasm_exec.js:134-195 | `loadValue` after `storeValue` gives the value back, for every value, with -0 as 0 |
| `RefTable.WordsByKind` | web/wasm_exec.js:147-194 | in every reachable state the word for a value: 0x7FF80001 and the id for an object, ...02 for a string, ...03 for a symbol, ...04 for a function, 0x7FF80000 for other references and NaN, zero for undefined, and a number itself |
| `RefTable.PinnedWords` | web/wasm_exec.js:485-503 | zero, null, true, false, the global object and the Go object keep the ids 1 to 6 |
| `RefTable.WordsIdentifyValues` | web/wasm_exec.js:150-194 | two values that Go can hold have the same word if and only if they are the same value; no ordinary number has the bits of a reference |
| `RefTable.KeptWhileUnfinalized` | web/wasm_exec.js:313-323 | a reference finalized less often than it is held is not let go during a run |
| `RefTable.ReferenceIsStable` | web/wasm_exec.js:134-195 | a reference decodes to the same value under any later stores and finalizations until it is let go |
| `RefTable.LastFinalizeClears` | web/wasm_exec.js:317-322 | the last finalization clears the slot, removes it from the index and puts it into the pool |
| `RefTable.CountsAreConserved` | web/wasm_exec.js:166-175 | each dynamic count is references given minus references finalized, over every run |
| `RefTable.TightSpace` | web/wasm_exec.js:166-170 | the dynamic part of the table is exactly as long as the largest number of dynamic values ever live at once |
| `RefTable.ReleasingAllRestoresIndex` | web/wasm_exec.js:316-322 | when nothing dynamic is held, the index is the initial one and every dynamic slot is in the pool |
| `GoRuntime.Go.constructor` | web/wasm_exec.js:485-503 | the fields are those of the initial table |
| `GoRuntime.Go.StoreValue` | web/wasm_exec.js:147-195 | fields and memory change exactly as the table says; the eight bytes are the literal word for the kind of value, and decode to the value |
| `GoRuntime.Go.TakeSlot` | web/wasm_exec.js:165-175 | the value's own slot; or else the slot freed last, or a new one, with the value in it and a count of one |
| `GoRuntime.Go.LoadValue` | web/wasm_exec.js:134-145 | the decoding of the word at the address |
| `GoRuntime.Go.FinalizeRef` | web/wasm_exec.js:313-323 | the fields change as one finalization of the table |
| `ArgvLayout.RegionsAreDisjoint` | web/wasm_exec.js:509-518 | strings and table are 8-aligned, pairwise disjoint, in order, from 4096 to the end of the layout |
| `ArgvLayout.StartsAreTight` | web/wasm_exec.js:507-518 | the first string starts at 4096, and each next one, or the table, at the first multiple of eight after the NUL before |
| `ArgvLayout.StrPtr` | web/wasm_exec.js:509-518 | the string and its NUL are written, nothing else, and the offset moves to the next multiple of eight; it fails just when they do not fit |
| `ArgvLayout.PassArguments` | web/wasm_exec.js:506-546 | the exact outcome (range error, limit error from 12288 on, or argc and table), the strings and table written, and the memory below 4096 untouched |
| `ArgvLayout.ArgumentSlots` | web/wasm_exec.js:522-526 | argument `i`, with its NUL, is at the address in slot `i` of the table |
| `ArgvLayout.VariableSlots` | web/wasm_exec.js:528-532 | variable `i` is at that in the `i`-th slot after the null that ends the arguments |
| `ArgvLayout.NullSlots` | web/wasm_exec.js:526-539 | both lists end with a null |
| `ArgvLayout.LayoutIsReadBack` | web/wasm_exec.js:520-539 | following the table to NUL bytes gives every string up to its first NUL, with both nulls in place |
| `ArgvLayout.LayoutRoundTrip` | web/wasm_exec.js:506-546 | the program finds exactly what was passed if and only if no string contains a NUL |
| `Environment.Utf8KeepsNuls` | web/wasm_exec.js:511 | the UTF-8 bytes of a string, with surrogate pairs joined and lone surrogates replaced, contain a NUL if and only if the string does |
| `Environment.TerminatedUtf8` | web/wasm_exec.js:511 | encoding a string with a NUL appended gives its bytes and one NUL byte |
| `Environment.EncodedIsUtf8` | web/wasm_exec.js:511 | the number of bytes of a code point, their marks, and that their bits are the code point |
| `Environment.PairIsCodePoint` | web/wasm_exec.js:511 | a surrogate pair and its code point determine each other |
| `Environment.UnpairedUnits` | web/wasm_exec.js:511 | without pairs each unit stands for itself, or for U+FFFD when it is a surrogate |
| `Environment.PassEnvironment` | web/wasm_exec.js:506-546 | for JavaScript strings and variables in any order, the outcome and the layout are those of their UTF-8 bytes, with the `key=value` strings sorted by the UTF-16 units of the key |
| `Environment.VariablesInOrder` | web/wasm_exec.js:528-531 | the strings of the environment are each variable once, keys strictly ascending, as key, `=` and value |
| `Environment.ProgramFindsItsEnvironment` | web/wasm_exec.js:520-546 | the variables are passed once each, keys strictly ascending, as key, `=` and value; the program finds them and its arguments if and only if no argument, key or value contains a NUL |
| `Cache.InMemoryCache.GetRepoSummary` | internal/adapter/cache.go:50-59 | the summary, or nothing when key or name is missing |
| `Cache.InMemoryCache.GetRepoOverview` | internal/adapter/cache.go:61-70 | the overview, or nothing when key or name is missing |
| `Refresh.KeyIsInjective` | internal/controller/refresher.go:128 | the key of slash-free names determines both names |
| `Refresh.Refresher.RefreshWorkspace` | internal/controller/refresher.go:121-166 | the cache changes in one entry, to what git answered, or not at all when discovery fails |
| `Refresh.Refresher.RefreshAll` | internal/controller/refresher.go:98-117 | the cache is refreshed for every item of the listing, in order |
| `Refresh.CollectedIsPointwise` | internal/controller/refresher.go:133-159 | a repository is in the entry just when git answered for it, with git's fields and discovery's metadata |
| `Refresh.RefreshedFieldByField` | internal/controller/refresher.go:128-165 | after a refresh each field of the summary and of the overview of an answered repository is git's, but for name, path, forge mark and link, which are discovery's |
| `Refresh.EveryItemIsCached` | internal/controller/refresher.go:98-117 | after a refresh every item with a readable workspace has its own data in the cache |
| `Refresh.DistinctIsConsistent` | internal/controller/refresher.go:104-116 | with distinct slash-free portfolio names no two different items share a key |
| `Refresh.EnrichRepos` | internal/controller/workspace.go:74-86 | in place and field by field, the nine git fields are those in the cache and the other four stay; a repository that is not cached stays as it is |
| `Refresh.PageBaseAgrees` | internal/controller/workspace.go:61-64 | page and refresher look in the same directory if and only if "default" names the catch-all portfolio and no other |
| `Refresh.CacheAgreesWithGit` | internal/controller/refresher.go:98-166 | after a refresh the workspace page shows what git answers, and defaults where it fails |
| `Refresh.CachedOverviewAgreesWithGit` | internal/controller/portfolio.go:205-214 | the same for the overviews of the portfolio pages |
| `Refresh.NamedDefaultCollides` | internal/controller/refresher.go:105-108 | an input that fails: a directory named "default" beside a loose workspace makes the listing show the wrong repository's branch |
| `Refresh.LastWriterWins` | internal/controller/refresher.go:104-116 | for any listing, the entry of a key is that of the last readable item with the key |
| `Refresh.AgreesJustForOwners` | internal/controller/refresher.go:98-166 | for any listing, page and list of a workspace show what git answers, for all answers, if and only if the last readable item with its key lies in its own directory, or it has no repositories |
| `RefreshProtocol.StepKeepsInv` | internal/controller/refresher.go:169-217 | every action of every goroutine keeps the invariant |
| `RefreshProtocol.WorkIsConserved` | internal/controller/refresher.go:169-217 | at most 100 items queued; the listed items are, in order, started, queued, unsent and given up; the started ones are in flight or finished; until `Stop` is called none is given up and no goroutine ends |
| `RefreshProtocol.WritesComeFromListings` | internal/controller/refresher.go:161-165 | every entry that is new or differs from what the initial refresh left belongs to a finished item of some listing |
| `RefreshProtocol.EntriesStay` | internal/controller/refresher.go:121-165 | no entry is ever removed, also when its directory can no longer be read |
| `RefreshProtocol.GettersAgree` | internal/adapter/cache.go:50-70 | in every reachable state both getters find the same repositories, and the overview is the projection of the summary for the workspace of the key |
| `RefreshProtocol.RefreshedIsTwin` | internal/controller/refresher.go:128-165 | a refresh keeps summaries and overviews in step |
| `RefreshProtocol.QuietStepDecreases` | internal/controller/refresher.go:169-217 | every step but a tick decreases a measure of remaining work |
| `RefreshProtocol.NobodyIsStuck` | internal/controller/refresher.go:195-215 | after `close(done)` the scheduler can leave even with a full queue, and every worker has a step |
| `RefreshProtocol.WaitsJustForWork` | internal/controller/refresher.go:169-215 | before that, a worker waits just for the queue, and the scheduler for a tick or while a hundred items are queued |
| `RefreshProtocol.StopTerminates` | internal/controller/refresher.go:92-95 | a run without ticks that cannot go on has ended every goroutine and `Stop` has returned, within the measure |
| `RefreshProtocol.NothingFollowsStop` | internal/controller/refresher.go:92-95 | when `Stop` has returned every goroutine has ended and no event is possible, so no cache write |
| `RefreshProtocol.PagesAlwaysAgreeWithGit` | internal/controller/refresher.go:78-89 | from the initial refresh on, at every moment of every concurrent run over an unchanging file system, page and list of a workspace without rival show what git answers |
| `RefreshProtocol.DistinctIsUnrivalled` | internal/controller/refresher.go:128 | with distinct slash-free portfolio names no item has a rival |
| `Rivals.Refreshes` | internal/controller/refresher.go:168-217 | after a tick the concurrent refresher can reach, item by item, the cache of a sequential refresh of any prefix of the listing |
| `Rivals.LiveJustWithoutRivals` | internal/controller/refresher.go:78-217 | page and list are right at every moment of every run and for all answers of git, if and only if no readable workspace of another directory has the key, or there is no repository to show |
| `LostUpdates.UpdateIsLost` | internal/controller/refresher.go:121-166 | a run in which git's later answer is in the cache, and then a worker that asked earlier puts the earlier one back |
| `LostUpdates.RightForGoodJustWithoutStaleScans` | internal/controller/refresher.go:121-217 | once the entry of a workspace agrees with a file system that changes no more, it does so for good if and only if no worker is in the midst of a stale scan for its key |
| `Streams.WebSocket.Callback` | internal/terminal/adapter/websocket.go:98-115 | a message on an open connection is appended to the queue, or closes it when a cancelled context wins the race; a close event and a close set their error and end arrivals; nothing happens to a closed connection |
| `Streams.WebSocket.ReadChunk` | internal/terminal/adapter/websocket.go:150-167 | one select: an error of the context, one chunk into the buffer or its promise's error, or the close error |
| `Streams.WebSocket.Read` | internal/terminal/adapter/websocket.go:170-180 | the loop refines `Fill`, and then the first bytes of the buffer are handed out and the rest kept |
| `Streams.WebSocket.Write` | internal/terminal/adapter/websocket.go:183-194 | sends the frames of the bytes, or nothing and the error when closed |
| `Streams.FramesAreExact` | internal/terminal/adapter/websocket.go:188-192 | the frames concatenate to the bytes, all but the last have 4096 of them, and there are as few as possible |
| `Streams.TerminalIO.OnData` | internal/terminal/adapter/terminalio.go:83-92 | a key press is appended to the queue, and dropped just when closed or when a hundred are waiting |
| `Streams.TerminalIO.ReadChunk` | internal/terminal/adapter/terminalio.go:145-153 | one chunk into the buffer, or end of file when closed |
| `Streams.TerminalIO.Read` | internal/terminal/adapter/terminalio.go:156-166 | the same refinement as for the WebSocket |
| `Streams.FillKeepsOrder` | internal/terminal/adapter/websocket.go:170-176 | whatever the browser does meanwhile, bytes handed out and buffered are those of the arrivals that left the queue, in order |
| `Streams.EverythingArrives` | internal/terminal/adapter/websocket.go:98-115 | over any reads, as long as the browser has only delivered messages, or at most a hundred messages and keys, what was queued is these, one by one and in order; a close ends the arrivals there |
| `Streams.ReceivedIsPrefix` | internal/terminal/adapter/websocket.go:150-180 | all that is received up to the first error is a prefix of what arrived up to the first broken promise; when none was broken, what is missing is exactly what buffer and queue still hold |
| `Streams.CloseOvertakesChunk` | internal/terminal/adapter/websocket.go:150-167 | an input that fails: a read on a closed connection reports the close and hands out nothing of the queued chunk |
| `Streams.ReadsAreSafeJustWhenOpen` | internal/terminal/adapter/websocket.go:150-180 | no choice of the selects makes a read report an error while arrivals are queued, if and only if the queue is empty, the buffer is enough for the caller, or neither close nor cancellation is pending |
| `Streams.BrokenPromiseCostsItsChunk` | internal/terminal/adapter/websocket.go:154-158 | a read reports a broken promise if and only if it comes as far as the first one; it then has everything before it, leaves everything after it, and loses only that chunk |
| `Streams.ReadTakesWhatThereIs` | internal/terminal/adapter/websocket.go:170-180 | with nothing new arriving, a read returns the first min(n, available) bytes and leaves the rest in order; with nothing available it waits |
| `Bridge.WrittenIsPrefixOfSent` | internal/wssproxy/proxy.go:85-121 | in both directions, for all sizes, interleavings and errors, written is a prefix of sent, and equal when the copier ended by draining its source |
| `Bridge.NothingIsLostWithoutFaults` | internal/wssproxy/proxy.go:85-121 | over every run without a read error or failed write in a direction, its copier has not ended unless its source has, and sent is written, held and pending |
| `Bridge.EverythingCanBeDelivered` | internal/wssproxy/proxy.go:88-120 | from every state of such a run, while the target is open, the bridge alone can go on until all that was sent is written and an ended source has drained |
| `Bridge.CloseCutsOneSide` | internal/wssproxy/proxy.go:125-126 | which reads, writes and sends each Close ends, and that the others go on; a read of TCP has at most 32768 bytes |
| `Bridge.HandshakeIsSafe` | internal/wssproxy/proxy.go:81-130 | the sends on `done` never block; each connection is closed at most once, after a copier has ended; on return both have ended and both connections were closed once |
| `Bridge.ForcedStep` | internal/wssproxy/proxy.go:123-130 | once a copier has ended there is always a step that waits for no peer, until `bridge` returns |
| `Bridge.StepDecreases` | internal/wssproxy/proxy.go:81-130 | every step that is not a peer's decreases the measure |
| `Bridge.PeersAreCutOff` | internal/wssproxy/proxy.go:125-126 | after both Close calls the peers can add nothing |
| `Bridge.BridgeReturns` | internal/wssproxy/proxy.go:123-130 | once one copier has ended, every run that cannot go on without a peer has returned, with both copiers ended |
| `Tunnel.DownIsTransparent` | internal/wssproxy/proxy.go:85-103 | what the browser reads is a prefix of what the workspace sent, through bridge, WebSocket and Read, and all of it when everything drained |
| `Tunnel.NothingIsLostDown` | internal/terminal/adapter/websocket.go:105-180 | when the browser receives messages up to a close, read, buffered and queued bytes are exactly these; and when they are all that the bridge has written without fault, the rest of what was sent is still with the bridge |
| `Tunnel.UpIsTransparent` | internal/wssproxy/proxy.go:106-121 | what reaches the workspace is a prefix of what was passed to Write; when every frame was delivered, all of it once drained, and without fault the rest is still with the bridge |
| `Session.SessionIsSafe` | internal/terminal/controller/session.go:112-158 | the sends on the error channel never block, the session is closed only after a copier ended or Stop took it, and Start returns only after both copiers ended, with the session closed |
| `Session.NothingEndsUnprovoked` | internal/terminal/controller/session.go:131-151 | while the terminal stays open, the server does not end its output and no write fails, both copiers go on, Start waits, and only Stop can have closed the session |
| `Session.NothingIsSkipped` | internal/terminal/controller/session.go:131-141 | over every run, each key and chunk that arrived waits or was read once, and each one read is in a write or was written |
| `Session.InputEndsForAReason` | internal/terminal/controller/session.go:131-141 | the input copier ends with an error just after a failed write, without one just at the end of input |
| `Session.OutputEndsForAReason` | internal/terminal/controller/session.go:131-141 | the output copier ends as the session's output did, or with an error after a failed write |
| `Session.ReturnsJustWithoutWaiting` | internal/terminal/controller/session.go:147-151 | once Start has closed the session, every run that cannot go on without the outside has returned, if and only if the input copier is not waiting at an open terminal without a key |
| `Session.StartCanBeStuck` | internal/terminal/controller/session.go:143-151 | a run that gets there: the server ends the session, and Start waits for a key press |
| `Session.StartReturnsOnceTerminalCloses` | internal/terminal/controller/session.go:143-158 | with terminal and session closed, a run that cannot go on without the outside has returned |
| `Session.StopClosesTheSession` | internal/terminal/controller/session.go:161-171 | whenever Stop is called during a Start, the session is closed afterwards |
| `Session.FirstCopierDecides` | internal/terminal/controller/session.go:131-157 | over every run, once a value was received, the outcome of Start is the first value that any copier has sent |
| `HostKeys.UpsertElsewhere` | internal/terminal/adapter/indexeddb.go:283-293 | an upsert touches no other name, in the list or in the map view |
| `HostKeys.UpsertHere` | internal/terminal/adapter/indexeddb.go:283-293 | the map view shows the new value if and only if the name occurred at most once or had that value already |
| `HostKeys.UpsertKeepsUnique` | internal/terminal/adapter/indexeddb.go:283-293 | unique names stay unique |
| `HostKeys.UpsertIsMapUpdate` | internal/terminal/adapter/indexeddb.go:278-295 | with unique names an upsert of the list is an update of the map |
| `HostKeys.FindWithout` | internal/terminal/adapter/indexeddb.go:219-231 | after a deletion that name is not found and every other is found as before |
| `HostKeys.UpsertIs` | internal/terminal/adapter/indexeddb.go:283-293 | the first entry of the name is replaced in its place, or the new one appended |
| `HostKeys.WithoutIs` | internal/terminal/adapter/indexeddb.go:219-231 | a deletion takes away all entries of the name and no other |
| `HostKeys.KeyStore.SaveHost` | internal/terminal/adapter/indexeddb.go:278-295 | the stored list becomes its upsert, or nothing changes on an error |
| `HostKeys.KeyStore.SaveKey` | internal/terminal/adapter/indexeddb.go:199-216 | the same for keys |
| `HostKeys.KeyStore.GetKey` | internal/terminal/adapter/indexeddb.go:185-196 | the first entry of that name |
| `HostKeys.KeyStore.DeleteKey` | internal/terminal/adapter/indexeddb.go:219-231 | the list without that name |
| `HostKeys.HostKeyCallback.Check` | internal/terminal/controller/session.go:200-217 | a known host is accepted just when its fingerprint is the one in memory, and nothing changes; an unknown one just when get and set work, and is then in memory and in the store with its fingerprint; otherwise nothing changes |
| `HostKeys.MemoryEqualsStore` | internal/terminal/controller/session.go:189-217 | over any calls and rebuilt callbacks, the map in memory is the map view of the stored list |
| `HostKeys.TrustPersists` | internal/terminal/controller/session.go:200-217 | a host once accepted is later accepted if and only if it shows the same fingerprint |
| `HostKeys.TrustedIsFirstStored` | internal/terminal/controller/session.go:189-217 | over every sequence of calls and rebuilds from an empty store, a host is known with the fingerprint of the first call that found the database working, and accepted if and only if it shows that one |
| `HostKeys.UnknownUntilStored` | internal/terminal/controller/session.go:200-217 | without such a call it is unknown, and accepted if and only if it can be stored |
| `Stages.ConvertTestReports` | internal/adapter/forge.go:206-236 | the non-nil reports, each as often as it was given, latest start time first |
| `Stages.LoadsAgreeJustWithoutTies` | internal/adapter/forge.go:206-236 | two loads of one file show the same latest statuses, whatever the order of the map and of ties, if and only if for each stage all reports of maximal start time have one status |
| `Stages.LatestStageReports` | internal/controller/renderer.go:256-262 | the first report of each stage, in order |
| `Stages.LatestIsOneAnswer` | internal/controller/renderer.go:256-262 | on the loader's order, stage maps and cards cover the same stages, those with reports, and agree on a report of maximal start time |
| `Stages.DedupIsFirstAppearance` | internal/controller/portfolio.go:242-253 | each stage name once, exactly the names given, in order of first appearance |
| `HeatMap.ScanReports` | internal/controller/portfolio.go:231-239 | first-seen statuses of one repository, and its sums added to the totals |
| `HeatMap.BuildHeatMap` | internal/controller/workspace.go:105-150 | the nested loops give the stages once each in first-appearance order, one row per loaded repository, and the sums over the flat sequence of all reports |
| `HeatMap.HeatMapOfOne` | internal/controller/portfolio.go:221-260 | a repository is left out without a forge.yaml that can be loaded; otherwise one row with its name, link and first statuses, its reports, and its stages from the specification first |
| `HeatMap.HeatMapOfTwo` | internal/controller/portfolio.go:223-260 | rows, stage names and reports of a sequence of repositories are those of its parts, in order |
| `HeatMap.ColumnsAreAllStages` | internal/controller/workspace.go:132-143 | a stage is a column if and only if a loaded repository names it in its specification or a report |
| `Portfolios.RewriteRepoLinks` | internal/controller/portfolio.go:266-273 | in place, every repository gets the link `/portfolios/`p`/workspaces/`w`/repos/`r of its portfolio, workspace and name, and nothing else changes |
| `Portfolios.LinkNames` | internal/controller/portfolio.go:266-273 | the text of a link, and that links of slash-free names are different for different repositories |
| `Portfolios.EnrichRepos` | internal/controller/portfolio.go:205-218 | field by field, the repositories as the cache knows them, and the number of dirty ones among them |
| `Portfolios.EnrichWorkspaces` | internal/controller/portfolio.go:195-262 | in place, every workspace is enriched, and the running totals are the sums over all of them |
| `Portfolios.CountTasks` | internal/controller/portfolio.go:311-318 | the nested loops sum the tasks of the flat sequence of stage repositories |
| `Portfolios.OrchestrateOne` | internal/controller/portfolio.go:302-330 | field by field, description, plans and progress of a workspace, unchanged where files are missing or empty |
| `Portfolios.EnrichOrchestration` | internal/controller/portfolio.go:300-332 | description, plans and progress of every workspace, unchanged where files are missing or empty |
| `Portfolios.SumsAreFlat` | internal/controller/portfolio.go:61-141 | sums taken workspace by workspace are folds over the flat sequences of repositories, reports and plans |
| `Portfolios.PercentIsInRange` | internal/controller/portfolio.go:350-352 | PercentDone is in 0..100 when no stage repository has more tasks done than tasks |
| `Portfolios.PercentIsTruncated` | internal/controller/portfolio.go:350-352 | PercentDone times the total is at most a hundred times the tasks done, and more than that one percent on; zero without tasks |
| `Portfolios.DirtyIsCounted` | internal/controller/portfolio.go:213-216 | the sum of the loop is the number of dirty repositories |
| `Portfolios.StatusIsCounted` | internal/controller/portfolio.go:341-348 | the sum of the loop is the number of plans of that status |
| `PortfolioPages.MaxTimeIsGreatest` | internal/controller/portfolio.go:276-284 | the time is an upper bound of the commit times, and one of them unless it is zero |
| `PortfolioPages.MaxCommitTime` | internal/controller/renderer.go:360-368 | the loop computes that time |
| `PortfolioPages.MaxPortfolioCommitTime` | internal/controller/portfolio.go:288-296 | the nested maximum is the maximum over all repositories of all workspaces |
| `PortfolioPages.AggregateProgress` | internal/controller/portfolio.go:335-354 | from the progress fields of the workspaces, the number of plans, of those in progress and of those completed, the task sums and the percentage over the flat sequence of all plans |
| `PortfolioPages.PrepareWorkspaces` | internal/controller/portfolio.go:78-97 | the statistics of a portfolio are the sums over its workspaces as they are shown |
| `PortfolioPages.PreparedRepos` | internal/controller/portfolio.go:78-97 | field by field, a repository as the pages show it: found, linked, and with what the cache knows of it |
| `PortfolioPages.PreparedRest` | internal/controller/portfolio.go:300-332 | the other fields of a workspace as the pages show it, from its files and its repositories |
| `PortfolioPages.SortByTime` | internal/controller/portfolio.go:99-108 | the same workspaces and repositories in another order, sorted on both levels |
| `PortfolioPages.GetPortfolio` | internal/controller/portfolio.go:143-190 | the page: every workspace prepared, sorted by time or by name, with the sums as statistics, or the error of discovery |
| `PortfolioPages.ListPortfolios` | internal/controller/portfolio.go:61-141 | the page: every portfolio prepared, sorted by the mode, the global statistics the sums over everything, or the error of discovery |
| `PortfolioPages.TotalPermutes` | internal/controller/portfolio.go:99-132 | sums do not depend on the order |
| `PortfolioPages.RearrangedKeepsSums` | internal/controller/portfolio.go:99-108 | sorting workspaces and repositories changes no total |
| `PortfolioPages.TotalsDescribeThePage` | internal/controller/portfolio.go:110-139 | in either mode the global and the portfolios' totals are the sums over the workspaces shown |
| `PortfolioPages.PageTotalsAreFlat` | internal/controller/portfolio.go:61-141 | each global total spelled out over the flat sequences of what the page shows: numbers of workspaces, repositories, dirty ones, plans and their states, sums of tests and tasks |
| `PortfolioPages.TimeModeSortsThreeLevels` | internal/controller/portfolio.go:99-127 | portfolios, workspaces and repositories come in descending order of latest commit |
| `PortfolioPages.OtherModesSortByName` | internal/controller/portfolio.go:128-132 | in every other mode portfolios are sorted by name, with workspaces as they were found |
| `PortfolioPages.PortfoliosAreThoseFound` | internal/controller/portfolio.go:61-97 | each portfolio of the page is one that was found, under its name and path, with its description and totals |
| `PortfolioPages.PortfolioPageIsSorted` | internal/controller/portfolio.go:143-190 | the page of one portfolio, under its name and path, is sorted by latest commit or by name |
| `WorkspacePage.GetWorkspace` | internal/controller/workspace.go:60-152 | the page: repositories found, enriched, sorted by the mode and linked, with stages, rows and totals over them, or the error of discovery |
| `WorkspacePage.ShownIsFound` | internal/controller/workspace.go:74-102 | each repository of the page is one that was found, as the cache knows it |
| `WorkspacePage.FoundIsShown` | internal/controller/workspace.go:74-102 | each repository that was found is on the page, and no more of them |
| `WorkspacePage.ShownInOrder` | internal/controller/workspace.go:89-102 | every repository has the link of the page; they are in descending order of commit, or ascending by name |
| `WorkspacePage.PageAgreesWithGit` | internal/controller/workspace.go:74-102 | after a refresh the page is git's answers for the repositories found, rearranged and linked |
| `WorkspacePage.GitPageFieldByField` | internal/controller/workspace.go:74-102 | a repository of such a page field by field: found, linked, with the nine fields of git's answer, or discovery's when there is none |
| `ForgePage.ForgeStatistics` | internal/controller/forge.go:57-85 | sums over all reports, the mean coverage of those that have one, the number of stages, and the status of each |
| `ForgePage.MeanIsBetween` | internal/controller/forge.go:79-82 | the page has an average just when some report has coverage, and it lies between any bounds of these coverages |
| `ForgePage.StageCountIsCardCount` | internal/controller/renderer.go:256-262 | the number of stages is the number of cards the renderer shows |
| `Recent.TopRecent` | internal/controller/renderer.go:301-346 | the n greatest, greatest first, none left out newer than one shown, and the input as it was |
| `Recent.TopRecentPortfolios` | internal/controller/renderer.go:301-314 | the same, in descending order of latest commit of a portfolio |
| `Recent.TopRecentWorkspaces` | internal/controller/renderer.go:317-330 | the same, in descending order of latest commit of a workspace |
| `Recent.TopRecentRepos` | internal/controller/renderer.go:333-346 | the same, in descending order of commit |
| `Ordering.SortSlice` | internal/controller/portfolio.go:105-107 | what the code relies on of sort.Slice: sorted and a permutation, in place |
| `Ordering.SortedIsUnique` | internal/adapter/workspace.go:79-81 | when the order leaves no ties, as with distinct names, the result of sort.Slice is determined |
| `Ordering.StringLessIs` | internal/adapter/workspace.go:79-81 | one name comes before another when it is a proper beginning of it or less at the first difference |
| `Discovery.ScanRepos` | internal/adapter/workspace.go:145-181 | the visible directories with a .git, sorted by name, none when the workspace cannot be read |
| `Discovery.ListWorkspaces` | internal/adapter/workspace.go:42-84 | the visible directories with a go.work, with their repositories, sorted by name, or an error |
| `Discovery.GetWorkspace` | internal/adapter/workspace.go:86-141 | the repositories of the named workspace; it fails just when there is no go.work under the name or the directory cannot be read |
| `Discovery.IsNamedPortfolio` | internal/adapter/portfolio.go:149-170 | a readable directory with a visible workspace |
| `Discovery.ListPortfolios` | internal/adapter/portfolio.go:45-113 | the named portfolios sorted by name, then the catch-all portfolio if there are loose workspaces |
| `Discovery.GetPortfolio` | internal/adapter/portfolio.go:115-145 | the portfolio of that name, with "default" for the base directory, or an error |
| `Partition.ListedRepos` | internal/adapter/workspace.go:145-181 | a listed repository is a directory, neither hidden nor ignored, with a .git; its fields, with nothing from git |
| `Partition.DetailedRepos` | internal/adapter/workspace.go:101-130 | the same of the detail view |
| `Partition.ListedWorkspaces` | internal/adapter/workspace.go:51-77 | a listed workspace is a directory, neither hidden nor ignored, with a go.work; its fields and repositories |
| `Partition.SomeWorkspace` | internal/adapter/portfolio.go:149-170 | a directory has a workspace just when one of its directories, neither hidden nor ignored, has a go.work |
| `Partition.ListedPortfolios` | internal/adapter/portfolio.go:45-113 | a named portfolio is a readable directory, neither hidden nor ignored, without a go.work and with a workspace; the catch-all portfolio follows when there are loose workspaces |
| `Partition.ListingsAscend` | internal/adapter/workspace.go:79-81 | portfolios, workspaces and repositories are listed in strictly ascending order of name |
| `Partition.OpensJustReadable` | internal/adapter/workspace.go:86-96 | a name opens a workspace just when the directory of that name can be read and has a go.work, and a portfolio just when it is "default" or a directory, and can be read |
| `Partition.EveryWorkspaceIsListed` | internal/adapter/portfolio.go:45-113 | the workspaces in listed portfolios are exactly the visible ones at depth one, or at depth two under a readable directory that is none |
| `Partition.NoWorkspaceIsListedTwice` | internal/adapter/portfolio.go:45-113 | no two listed portfolios have a workspace in common |
| `Partition.WorkspaceNamesAreDistinct` | internal/adapter/workspace.go:79-83 | in each listed portfolio the workspaces have distinct names and are sorted by them |
| `Partition.NoPortfolioIsEmpty` | internal/adapter/portfolio.go:78-92 | every listed portfolio has a workspace |
| `Partition.ListedIsFound` | internal/adapter/portfolio.go:115-145 | every listed portfolio is found by its name as it was listed, if and only if no listed directory is named "default" |
| `Partition.ListingIsDistinct` | internal/adapter/portfolio.go:94-110 | otherwise the names of a listing are distinct and slash-free |
| `Partition.ViewsAgree` | internal/adapter/workspace.go:86-181 | list view and detail view of a workspace have the same repositories in the same order, with the same fields |
| `TreeWorld.WorldIs` | internal/controller/refresher.go:121-126 | over a tree, the refresher finds a listed workspace just when it can be opened, and then its detail view |
| `TreeWorld.WorldIsApart` | internal/adapter/workspace.go:101-132 | no path of a repository is found in two directories |
| `EndToEnd.OwnsUnlessOvershadowed` | internal/controller/refresher.go:104-116 | the entry of a listed workspace is filled from its own directory, unless that lies in "default" and there is a loose workspace of its name |
| `EndToEnd.WorkspacePageIsLive` | internal/controller/workspace.go:60-102 | after the initial refresh, over any tree and any answers of git, the page of a listed workspace is git's answers for its repositories, for all portfolios but a directory named "default" |
| `EndToEnd.DefaultDirHasNoPage` | internal/controller/workspace.go:61-64 | whatever the address of such a directory opens, listed or not, its repositories lie elsewhere |
| `EndToEnd.ListPageIsLive` | internal/controller/portfolio.go:205-214 | after the initial refresh, the list of a workspace shows git's answers, whatever they are, if and only if it has no repositories or is not overshadowed by a loose workspace |
| `EndToEnd.LiveAtAllTimes` | internal/controller/refresher.go:78-217 | at every moment of every run of the refresher, page and list of a listed workspace show git's answers, whatever they are, if and only if it has no repositories or no other portfolio of its name has a workspace of its name |
| `EndToEnd.OnlyDefaultIsRivalled` | internal/adapter/portfolio.go:94-110 | only the catch-all portfolio and a directory "default" can be such a pair |
| `EndToEnd.RunningPageIsLive` | internal/controller/workspace.go:60-102 | at every moment of a run the page of a workspace without rival is git's answers for its repositories |
| `EndToEnd.ListingIsFresh` | internal/adapter/workspace.go:71-76 | discovered workspaces have the empty fields that the portfolio pages add to |
| `EndToEnd.LinksLeadBack` | internal/controller/forge.go:41-47 | the path that the forge page computes from a link is that of the listed repository, if and only if its portfolio is not a directory named "default" |

## Left out

- HTTP, SSH, WebSocket and IndexedDB themselves, git subprocesses, YAML parsing and the file system: their results are inputs.
- The terminal user interface, the DOM driver, routing, templates, `timeAgo`, and the filters for unattended repositories.
- The JavaScript event loop (`_resume`, timeouts) and the other imports of `wasm_exec.js`, such as `valueCall`, which only move values through `storeValue` and `loadValue`.
- Memory.SetInt64: NaN, which writes two zero words, is not modelled; of the callers only `valueLength` can pass it, for an object without a length. Other arguments are reals; in the int64 range every operand is exact as a double, but for the quotient of tiny negatives, which is modelled.
- RefTable.StepKeepsInv: a table of 2^32 - 1 slots or more is not modelled, since it does not fit a JavaScript array.
- GoRuntime.Go.FinalizeRef: Go's own finalizer queue is not modelled; it finalizes only references it holds.
- Cache.InMemoryCache.SetWorkspace: the `UpdatedAt` timestamp is not modelled, as nothing reads it.
- RefreshProtocol.StopTerminates: calling `Stop` twice, or before `Start`, is not modelled; termination is stated for runs without ticks, since a ticker and `done` race fairly only under an assumption on the Go scheduler.
- Streams.WebSocket.Callback: the capacity 4096 of the queue is not modelled. A callback that finds it full blocks the event loop until a chunk is taken, so nothing else arrives meanwhile and its message is the next in order; the model only allows more, and its statements for all turns cover this. Opening the connection is not modelled.
- Streams.TerminalIO.Read: the resize events and `Write` of the terminal are not modelled.
- Tunnel.DownIsTransparent: SSH, which runs over the connection, is not part of the tunnel; that the WebSocket delivers messages in order is an assumption; it may lose any tail of them.
- Session.ReturnsJustWithoutWaiting: that xterm.js calls the callback of every write is an assumption; `Write` of the terminal waits for it.
- Session.SessionIsSafe: the steps of `Start` before the copiers run, and two concurrent calls of `Start`, are not modelled.
- HostKeys.KeyStore.SaveHost: endpoints and parameters of the store, which have the same shape, are not modelled.
- Discovery.GetWorkspace: names with path separators or dots, as a caller could put them into a URL, are not modelled; a name is one entry of a directory.
- Discovery.ListPortfolios: the tree does not change during a walk, and `filepath.Match` is an uninterpreted predicate; symbolic links are not modelled.
- PortfolioPages.ListPortfolios: one page reads the cache as it is at one moment, though the refresher may write between two reads.
- WorkspacePage.GetWorkspace: description, roles, meta plans and repository plans are not modelled; the page only copies them.
- ForgePage.ForgeStatistics: percentages are reals, without the rounding of float64; the repository plans are not modelled.
- ForgePage.MeanIsBetween: for the same reason this is a statement about reals; a rounded mean can leave the bounds.
- Ordering.SortSlice: the order of equivalent elements is left open, as in sort.Slice.
- Times are natural numbers with the zero time least; integers are unbounded, where Go's 64 bits would need absurd counts to overflow.
