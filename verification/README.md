# Diaspor verification

Dafny models of the stateful core of Diaspor, with machine-checked proofs about whole runs.
`dafny verify dfyconfig.toml` checks everything. One module models one component:

| module | component |
|---|---|
| `Common` | bytes, options, results, sequence helpers |
| `VfsPaths` | `VfsPath`: normalisation, parent, name, join |
| `MemoryFs` | the in-memory backend and its handles |
| `CopyLoops` | the CLI `put` and `cat` loops over a backend |
| `EventSink` | the sidecar event sink over a backend |
| `RateLimit` | the token bucket |
| `DailyCap` | the calendar-day counter and the two-gate middleware |
| `ModelHub` | the model catalog and the verified download cache |
| `LiveSession` | the live-session queue of the TypeScript SDK |
| `LogRotation` | the rotating log writer and the log reader |
| `TokenLedger` | the desktop token ledger |
| `PullStream` | the newline-delimited response loop of a model pull |
| `Vision` | landmark quantisation, tensor layout, heatmap decoding |
| `ImageStudio` | the image-provider router |
| `ListingCache` | the directory-listing cache |

Each stateful component is a class whose methods follow the source statement by statement and
are proved to compute a step function. Runs fold step functions, and the main results are
lemmas about every run, usually against a definition that does not mention the component: the
segments of a path, the last writer of a byte, the windows of a rate limit, the lines of a text,
a list of log files, a meter of granted tokens.

## How the model reads the source

- A method body that holds a lock is one atomic step; in the middleware each gate is one step, so
  requests may interleave between the gates. Ledger commands and log writes are atomic and saves
  succeed.
- Monotonic time and floating-point values are reals, wall-clock stamps are whole nanoseconds.
  A bucket is created at the instant of the call that needs it; since it starts full, an earlier
  instant would make no difference.
- The digest is an arbitrary function, a download answers arbitrarily, and removing a file may
  fail. JSON parsing is an arbitrary function from a trimmed line to the fields that are read.
- A log record carries the bytes of its serialised line, and parsing that line gives the record back.
- `offset + length` of a handle operation fits the machine word.

## Where the code does less than its documentation says

- Paths are documented as normalised, but `join` does not normalise; `HiddenChildWitness` shows
  a directory that is not listed yet cannot be removed around, and `ListIsChildrenIff` gives the
  exact condition.
- The daily cap is per counter date; `LateStampExceedsDay` shows a UTC day over the cap when
  stamps arrive out of order and `DailyCapIff` says exactly when.
- The midnight hint is rounded down, so waiting exactly that long can be too short;
  `MidnightHint` says when.
- The count of `ensure_all` is documented as the files now present; `ClobberWitness` and
  `EnsureAllCachesIff` show when a counted file is gone.
- The live iterator is documented to end after close; `ReentrantCloseYieldsAfterDone` and
  `DoneFinalIff` show when a value follows a `done`.
- A completed pull still parses what else its last chunk carried; `RepeatedSuccessMatters` shows
  an outcome that depends on the chunking and `OutcomeFixedIff` says exactly when it does not.
- A log size limit of zero, or no rotated files, weakens the size bound; `ExcessBelowOneRecord`
  and `ZeroRotatedKeepsOneFile` say how.
- The listing cache calls its eviction least-recently-used; `HitKeyIsDropped` shows it drop the
  key that was hit last and `VictimIsLruIff` says exactly when the name is right.
- Any string is a stream id, but outer slashes are lost; `SharedFileIff` says which ids share files.

## Model

| member | source | states |
|---|---|---|
| `VfsPaths.New` | crates/diaspor-core/src/path.rs:35-66 | the normalising pass returns nothing exactly for empty text or text with NUL, and otherwise the canonical rendering of the maximal separator-free runs of the text |
| `VfsPaths.NormalizeLaws` | crates/diaspor-core/src/path.rs:29-66 | normalisation gives a canonical path, keeps exactly the non-empty segments in order and is idempotent |
| `VfsPaths.CanonicalIffRendered` | crates/diaspor-core/src/path.rs:12-14 | a path is canonical (leading slash, no backslash, no doubled or trailing slash) if and only if it is the rendering of its own segments |
| `VfsPaths.SegmentsOfRender` | crates/diaspor-core/src/path.rs:41-65 | rendering plain segments and splitting the path again gives the same segments back |
| `VfsPaths.TrimIsMiddle` | crates/diaspor-core/src/path.rs:107-111 | the trimming in `join` removes exactly the slashes at both ends |
| `VfsPaths.JoinAppends` | crates/diaspor-core/src/path.rs:107-118 | `join` with a plain segment appends exactly that segment |
| `VfsPaths.ParentDropsLast` | crates/diaspor-core/src/path.rs:82-103 | `parent` drops the last segment and `name` is the last segment |
| `VfsPaths.JoinThenParent` | crates/diaspor-core/src/path.rs:82-118 | the parent of a join with a plain segment is the original path, its name is the segment, and the result is canonical |
| `VfsPaths.ParentThenJoin` | crates/diaspor-core/src/path.rs:82-118 | `parent().join(name())` restores every canonical path but root |
| `VfsPaths.ParentWalk` | crates/diaspor-core/src/path.rs:82-94 | `n` parent steps drop `n` segments, so the walk reaches root after exactly as many steps as there are segments |
| `MemoryFs.MemoryBackend.constructor` | crates/diaspor-backend-memory/src/lib.rs:92-98 | a new backend holds only the root directory |
| `MemoryFs.MemoryBackend.List` | crates/diaspor-backend-memory/src/lib.rs:123-157 | the key scan returns each listed key once and nothing else, or the not-found / kind-mismatch error |
| `MemoryFs.MemoryBackend.Open` | crates/diaspor-backend-memory/src/lib.rs:159-217 | new map and result for every flag combination: exclusive create, truncate, kind mismatch, missing or non-directory parent; an error changes nothing |
| `MemoryFs.MemoryBackend.CreateDir` | crates/diaspor-backend-memory/src/lib.rs:219-240 | new map and result; an error (no parent, parent missing or not a directory, already exists) changes nothing |
| `MemoryFs.MemoryBackend.Remove` | crates/diaspor-backend-memory/src/lib.rs:242-258 | new map and result; root is refused, a directory with any key under its prefix is refused, an error changes nothing |
| `MemoryFs.MemoryHandle.Read` | crates/diaspor-backend-memory/src/lib.rs:277-295 | the bytes of the range cut at the end of the file, looked up by path at the time of the call |
| `MemoryFs.MemoryHandle.Write` | crates/diaspor-backend-memory/src/lib.rs:297-317 | zero-fill up to the end of the write, then overwrite; only the node at the path the handle holds changes |
| `MemoryFs.StepFrame` | crates/diaspor-backend-memory/src/lib.rs:159-317 | every failing call leaves the whole state as it was, every call changes at most the node at its own path, and a handle write never creates or removes a node |
| `MemoryFs.RemoveIff` | crates/diaspor-backend-memory/src/lib.rs:242-258 | in every tree a removal succeeds if and only if the path is not root and is a file or a directory without children; it takes exactly that node, and every refusal changes nothing and gives its own error |
| `MemoryFs.OpenIff` | crates/diaspor-backend-memory/src/lib.rs:159-217 | in every tree an open succeeds if and only if the path is a file not asked to be new, or missing with create asked below a directory; afterwards it is a file whose bytes are kept exactly if it existed and was not truncated |
| `MemoryFs.OpenErrors` | crates/diaspor-backend-memory/src/lib.rs:159-217 | which error each refused open gets |
| `MemoryFs.CreateDirIff` | crates/diaspor-backend-memory/src/lib.rs:219-240 | a directory is made if and only if the path is missing below a directory, and then is empty; which error each refusal gets |
| `MemoryFs.HandleIff` | crates/diaspor-backend-memory/src/lib.rs:277-317 | a handle reads and writes if and only if a file stands at its path now; what it answers otherwise |
| `MemoryFs.ReadBytesAt` | crates/diaspor-backend-memory/src/lib.rs:277-295 | how many bytes a read returns and which |
| `MemoryFs.ExclusiveCreateIsExclusive` | crates/diaspor-backend-memory/src/lib.rs:166-175 | from any state and whatever happens in between, two successful exclusive creates of one path have a successful removal of it between them |
| `MemoryFs.RemoveKeepsTree` | crates/diaspor-backend-memory/src/lib.rs:242-258 | the prefix scan is enough to keep every remaining key under an existing directory |
| `MemoryFs.StepKeepsTree` | crates/diaspor-backend-memory/src/lib.rs:159-317 | each atomic step keeps the flat map a tree |
| `MemoryFs.RunKeepsTree` | crates/diaspor-backend-memory/src/lib.rs:159-317 | in every run of opens, creates, removes and writes through any number of handles, in any interleaving: root is a directory, every other key has a directory as parent, directories hold no bytes |
| `MemoryFs.RunKeepsCanonical` | crates/diaspor-backend-memory/src/lib.rs:159-317 | runs over canonical paths store only canonical keys |
| `MemoryFs.ListedIff` | crates/diaspor-backend-memory/src/lib.rs:135-155 | for any two absolute paths, the prefix filter of `list` accepts a key if and only if `parent()` names the directory and the key is not hidden (empty name, or `//x` below root) |
| `MemoryFs.ListIsChildrenIff` | crates/diaspor-backend-memory/src/lib.rs:123-157 | in every tree, `list(p)` equals the keys whose `parent()` is `p` if and only if no such key is hidden |
| `MemoryFs.ScanIffChildren` | crates/diaspor-backend-memory/src/lib.rs:250-255 | the descendant scan of `remove` finds something if and only if some key has the directory as `parent()` |
| `MemoryFs.NodeIsReached` | crates/diaspor-backend-memory/src/lib.rs:123-157 | listing level by level from root reaches each node within its path length, and later rounds keep it |
| `MemoryFs.RunListsTheTree` | crates/diaspor-backend-memory/src/lib.rs:123-258 | after every run over canonical paths: `list(p)` is exactly the children by `parent()`, the scan of `remove` agrees with `list`, and repeated listing from root reaches exactly the stored nodes |
| `MemoryFs.HiddenChildWitness` | crates/diaspor-core/src/path.rs:105-118 | why canonical paths are needed: `join` does not normalise, so `/a/` is a reachable path value; once created it blocks removing `/a` but is not listed |
| `MemoryFs.CreateThenRemove` | crates/diaspor-backend-memory/src/lib.rs:219-258 | `remove` undoes a successful `create_dir` exactly |
| `MemoryFs.WriteThenRead` | crates/diaspor-backend-memory/src/lib.rs:277-317 | reading a written range returns the chunk, and ranges the write does not meet read as before |
| `MemoryFs.LastWriterWins` | crates/diaspor-backend-memory/src/lib.rs:297-317 | after any sequence of writes to a new file, each byte is that of the last write covering it, zero if none does, and the length is the furthest end of any write |
| `MemoryFs.RunLastWriterWins` | crates/diaspor-backend-memory/src/lib.rs:159-317 | in every run of opens, creates, removes and writes through any handles, each byte of each file is that of the last write covering it since the file was created or truncated, zero if none does, and the file ends at the furthest of those writes |
| `CopyLoops.RunPut` | crates/diaspor-cli/src/main.rs:159-181 | the put loop computes the chunk-by-chunk write at running offsets, or the path or open error |
| `CopyLoops.RunCat` | crates/diaspor-cli/src/main.rs:141-157 | the cat loop terminates, leaves the backend unchanged and computes the repeated buffered read |
| `CopyLoops.PutThenCat` | crates/diaspor-cli/src/main.rs:141-181 | over any previous content and for any chunking, `put` replaces the file by the whole input and `cat` of the same path then prints exactly that input |
| `CopyLoops.PutFailsCleanly` | crates/diaspor-cli/src/main.rs:159-167 | `put` fails exactly when the path is invalid or cannot be opened, and then changes nothing |
| `CopyLoops.PutIff` | crates/diaspor-cli/src/main.rs:159-181 | in every tree `put` succeeds if and only if the text names a file or a free place below a directory |
| `CopyLoops.CatIff` | crates/diaspor-cli/src/main.rs:141-157 | in every tree `cat` prints the whole content if and only if the text names a file; which error it gives otherwise |
| `EventSink.DecimalRoundTrip` | crates/diaspor-events/src/sink.rs:109-116 | reading a printed time gives it back, so distinct times give distinct file names |
| `EventSink.DocumentedLayout` | crates/diaspor-events/src/sink.rs:31-34 | the sidecar path of a window or threshold event, spelled out, for every root, stream id and time; outer slashes of the id disappear and an id of slashes only adds no directory |
| `EventSink.VfsEventSink.EnsureDir` | crates/diaspor-events/src/sink.rs:65-73 | directory creation where an existing node counts as success |
| `EventSink.VfsEventSink.PreparePath` | crates/diaspor-events/src/sink.rs:77-97 | the three directories are ensured in order, stopping at the first error, and the leaf path is returned |
| `EventSink.VfsEventSink.Emit` | crates/diaspor-events/src/sink.rs:106-134 | prepare, open with create and truncate, write the payload at offset zero; state and result on every path |
| `EventSink.PathsDistinct` | crates/diaspor-events/src/sink.rs:77-134 | for plain stream ids distinct (stream, kind, time) keys never share a path and no sidecar file path is one of the sink directories |
| `EventSink.EmitRefinesUpdate` | crates/diaspor-events/src/sink.rs:106-134 | one emit succeeds and is one map update of the keyed store, whatever was stored under the key before, with nothing else changed |
| `EventSink.EmitsRefineStore` | crates/diaspor-events/src/sink.rs:29-134 | after any sequence of emits with plain stream ids the backend is what it was before plus exactly the directories and the last payload per key, so no old tail and no stray node remains |
| `EventSink.EmitSucceeds` | crates/diaspor-events/src/sink.rs:106-134 | every emit in such a sequence succeeds and the file of its key reads back the payload |
| `EventSink.EmitsLandWhereDocumented` | crates/diaspor-events/src/sink.rs:31-34 | from the event constructors alone: after any sequence of emits, `<root>/.streams/<id>/windows/<t>.score.json` of a window and `<root>/.streams/<id>/events/<t>.event.json` of a threshold event hold its payload unless a later event has that path |
| `EventSink.NothingElseIsEmitted` | crates/diaspor-events/src/sink.rs:106-134 | every file that was not there before is at the documented path of some emitted event |
| `EventSink.EmitIff` | crates/diaspor-events/src/sink.rs:65-134 | in every tree an emit with a plain id succeeds if and only if the root is a directory, no file stands where a directory is needed and no directory where the file goes; then the documented path holds the payload and nothing else but missing directories changed |
| `EventSink.InvalidRootFails` | crates/diaspor-events/src/sink.rs:77-88 | a root that is no path is refused by name with nothing changed |
| `EventSink.MissingRootFails` | crates/diaspor-events/src/sink.rs:83-88 | a sink whose root is not in the backend fails at its first directory and changes nothing |
| `EventSink.FreshEmitIff` | crates/diaspor-events/src/sink.rs:77-97 | on a fresh backend an emit succeeds if and only if the sink root normalises to the root directory |
| `EventSink.SharedFileIff` | crates/diaspor-events/src/sink.rs:77-134 | exactly which keys share a file, for every root and all stream ids: the same kind and time, and ids that differ in outer slashes only |
| `EventSink.SlashedIdsShareFiles` | crates/diaspor-events/src/sink.rs:90-96 | so every stream id shares all its files with a different id |
| `RateLimit.TokenBucket.constructor` | crates/diaspor-api-server/src/rate_limit.rs:112-120 | a bucket starts full, with one minute of requests as burst and the matching refill rate |
| `RateLimit.TokenBucket.RefillAt` | crates/diaspor-api-server/src/rate_limit.rs:124-135 | linear refill capped at the maximum, nothing for a clock that went back |
| `RateLimit.TokenBucket.TryConsume` | crates/diaspor-api-server/src/rate_limit.rs:144-170 | refill, then debit one token or report the rounded-up wait |
| `RateLimit.RefillTwice` | crates/diaspor-api-server/src/rate_limit.rs:122-135 | refilling at an intermediate instant never changes a later level: the lazy bucket is the continuous one |
| `RateLimit.BucketIsSlack` | crates/diaspor-api-server/src/rate_limit.rs:124-170 | at every later instant of a monotone run the level equals the least slack over all windows that start at a grant, a quantity defined without any bucket |
| `RateLimit.AllowedIffWindowsAllow` | crates/diaspor-api-server/src/rate_limit.rs:144-170 | a call is allowed if and only if allowing it keeps every window starting at an earlier grant within the maximum plus rate times length |
| `RateLimit.WindowBound` | crates/diaspor-api-server/src/rate_limit.rs:124-170 | in every monotone run, any window from `s` to `t` allows at most `max + rate * (t - s)` calls, and the tokens stay between zero and the maximum |
| `RateLimit.SameGrantsSameAnswer` | crates/diaspor-api-server/src/rate_limit.rs:137-170 | two runs with the same grants answer every later call alike, hint included |
| `RateLimit.RejectedCallInvisible` | crates/diaspor-api-server/src/rate_limit.rs:140-143 | inserting or deleting a rejected call changes no other outcome of the run |
| `RateLimit.ReplayingGrants` | crates/diaspor-api-server/src/rate_limit.rs:144-170 | replaying only the allowed calls allows every one of them again |
| `RateLimit.RetryAfterIsLeast` | crates/diaspor-api-server/src/rate_limit.rs:150-168 | for a limit of at least one a minute the hint is in 1..60 and a call `j` whole seconds later is allowed if and only if `j` is at least the hint |
| `RateLimit.ZeroLimitNeverAdmits` | crates/diaspor-api-server/src/rate_limit.rs:154-165 | with a limit of zero every call of every run is rejected with the largest hint |
| `RateLimit.BackwardClockOvercounts` | crates/diaspor-api-server/src/rate_limit.rs:124-135 | why the clock must be monotone: a backward step credits the same minute twice and breaks the window bound |
| `DailyCap.DailyCounter.constructor` | crates/diaspor-api-server/src/rate_limit.rs:203-208 | a counter starts at zero on the UTC date of its first stamp |
| `DailyCap.DailyCounter.TryIncrement` | crates/diaspor-api-server/src/rate_limit.rs:215-233 | roll over only to a later date, then admit below the cap or report the midnight hint |
| `DailyCap.CounterTracksCharges` | crates/diaspor-api-server/src/rate_limit.rs:215-233 | in any order of stamps the count is exactly what was charged to the current date, and later dates are untouched |
| `DailyCap.NoDateOvercharged` | crates/diaspor-api-server/src/rate_limit.rs:215-233 | in whatever order stamps arrive, no counter date is ever charged more than the cap |
| `DailyCap.DailyCapHolds` | crates/diaspor-api-server/src/rate_limit.rs:210-233 | with stamps in order, at most the cap is admitted per UTC day |
| `DailyCap.AdmittedIff` | crates/diaspor-api-server/src/rate_limit.rs:215-233 | in every order of stamps a call is admitted if and only if fewer than the cap arrived before it while the same date was the latest seen, a condition on the stamps alone |
| `DailyCap.DailyCapIff` | crates/diaspor-api-server/src/rate_limit.rs:210-233 | in every order of stamps a UTC day stays within the cap if and only if at most that many of its stamps are among the first of the epoch they arrived in; without late stamps it always does |
| `DailyCap.LateStampExceedsDay` | crates/diaspor-api-server/src/rate_limit.rs:294-299 | why order matters: a late stamp is charged to the newer date, so one UTC day can be admitted more than the cap |
| `DailyCap.MidnightHint` | crates/diaspor-api-server/src/rate_limit.rs:236-246 | the hint is in 1..86400 and less than a second off; hint plus one second always reaches the next date, the hint alone exactly when the rest is whole seconds or below one |
| `DailyCap.AppState.constructor` | crates/diaspor-api-server/src/rate_limit.rs:61-67 | both maps start empty |
| `DailyCap.AppState.PassBucket` | crates/diaspor-api-server/src/rate_limit.rs:277-290 | first use creates the key's bucket; only that key's entry changes |
| `DailyCap.AppState.PassDaily` | crates/diaspor-api-server/src/rate_limit.rs:293-307 | first use creates the key's counter; only that key's entry changes |
| `DailyCap.AppState.RateLimitMiddleware` | crates/diaspor-api-server/src/rate_limit.rs:257-310 | bucket first, daily counter only when the bucket allowed the request; response and both maps |
| `DailyCap.BucketsAreIsolated` | crates/diaspor-api-server/src/rate_limit.rs:277-283 | in every interleaving of both gates over all keys, a key's bucket is what its own calls alone produce |
| `DailyCap.CountersAreIsolated` | crates/diaspor-api-server/src/rate_limit.rs:293-300 | in every interleaving a key's daily counter is what its own stamps alone produce |
| `DailyCap.AnswerDependsOnOwnCalls` | crates/diaspor-api-server/src/rate_limit.rs:257-310 | the answer to a call depends only on that key's earlier calls at the same gate |
| `DailyCap.KeyCapHolds` | crates/diaspor-api-server/src/rate_limit.rs:293-300 | in every interleaving of all keys the daily gate passes at most the cap per counter date for each key, and per UTC day exactly that key's in-time stamps; with stamps in order at most the cap per UTC day |
| `DailyCap.KeyWindowBound` | crates/diaspor-api-server/src/rate_limit.rs:277-290 | in every interleaving, what one key gets through the bucket gate in a window obeys the burst law |
| `DailyCap.RequestPassIff` | crates/diaspor-api-server/src/rate_limit.rs:257-310 | a whole request passes if and only if its bucket and its counter admit it; refused by the bucket it leaves every counter as it was |
| `DailyCap.RequestsAreGates` | crates/diaspor-api-server/src/rate_limit.rs:257-310 | a run of whole requests is a run of gates: one bucket gate per request, one daily gate per request the bucket admitted |
| `DailyCap.RequestCapHolds` | crates/diaspor-api-server/src/rate_limit.rs:257-310 | over every run of requests of all keys, a key's passing requests are at most the cap per counter date, exactly its in-time stamps per UTC day, and at most the cap per UTC day with stamps in order |
| `DailyCap.RequestWindowBound` | crates/diaspor-api-server/src/rate_limit.rs:257-310 | and in any window they number at most the limit plus the refill of the window |
| `DailyCap.RequestAdmittedIff` | crates/diaspor-api-server/src/rate_limit.rs:257-310 | the whole limiter without its state: a request passes if and only if one more grant keeps every window of the key's bucket grants within limit plus refill and it is among the first of its epoch within the cap |
| `DailyCap.BucketHint` | crates/diaspor-api-server/src/rate_limit.rs:281-290 | the hint of a refusal by the shared bucket gate is in 1..60 and the least whole number of seconds after which that key passes it |
| `DailyCap.DailyHint` | crates/diaspor-api-server/src/rate_limit.rs:297-307 | the hint of a refusal by the daily gate is in 1..86400, less than a second off midnight, and with one second more reaches the next date |
| `ModelHub.FromModels` | crates/diaspor-infer/src/catalog.rs:126-143 | loading succeeds exactly for schema version 1 with distinct ids and then holds every entry in declaration order; a duplicate error names a really duplicated id |
| `ModelHub.IterIsDeclarationOrder` | crates/diaspor-infer/src/catalog.rs:157-159 | iteration over a loaded catalog gives exactly the declared entries in order, each found under its id |
| `ModelHub.PinnedIff` | crates/diaspor-infer/src/catalog.rs:86-90 | a pin is 64 hexadecimal digits of either case with a known size |
| `ModelHub.UnknownIff` | crates/diaspor-infer/src/hub.rs:296-302 | an id is unknown if and only if no entry declares it; a declared id resolves its own entry |
| `ModelHub.Hub.Download` | crates/diaspor-infer/src/hub.rs:429-481 | stream into the partial file and rename onto the target; a broken stream leaves the partial file, an unknown scheme touches nothing |
| `ModelHub.Hub.Resolve` | crates/diaspor-infer/src/hub.rs:296-381 | gates, cache check, removal of a corrupt file, offline gate, download and verification; cache, result and whether a download was made, on every path |
| `ModelHub.Hub.EnsureAll` | crates/diaspor-infer/src/hub.rs:388-401 | skip gated entries, resolve the others in order, stop at the first error with that error |
| `ModelHub.OkIsVerified` | crates/diaspor-infer/src/hub.rs:290-381 | for every cache content, server answer and failing removal, success means the entry's own path holds a file of the pinned digest; a gated call touches nothing; offline never downloads |
| `ModelHub.GatePassIff` | crates/diaspor-infer/src/hub.rs:304-316 | the gates pass if and only if the licence is allowed and the entry is pinned or trust is given; which error each gives |
| `ModelHub.ResolveOkIff` | crates/diaspor-infer/src/hub.rs:296-381 | for every cache and environment: a resolve succeeds if and only if the gates pass and the entry is cached, or it is online, a bad file can be removed and the source delivers the pinned content; and exactly when it goes to the network |
| `ModelHub.ResolveErrors` | crates/diaspor-infer/src/hub.rs:320-365 | past the gates, which error every failing resolve gives |
| `ModelHub.BrokenLeavesPartial` | crates/diaspor-infer/src/hub.rs:466-480 | a broken download leaves what it received in the partial file and nothing at the target |
| `ModelHub.AbsentOrCorrect` | crates/diaspor-infer/src/hub.rs:320-365 | past the gates a pinned target ends absent or correct if and only if no needed removal failed |
| `ModelHub.RepeatIsFree` | crates/diaspor-infer/src/hub.rs:320-341 | once resolved, the entry resolves again to the same path with no download and no change, even offline |
| `ModelHub.HonestServerHeals` | crates/diaspor-infer/src/hub.rs:327-380 | whatever the cache held, an honest source makes an online resolve of a pinned entry succeed |
| `ModelHub.ResolveFrame` | crates/diaspor-infer/src/hub.rs:429-512 | a resolve touches only its own target and partial file, and a successful download leaves no partial file |
| `ModelHub.CachePathTwoLevels` | crates/diaspor-infer/src/hub.rs:281-288 | a well-formed entry is named by exactly two slash-free components below the root; the directory is never a dot component, the file name is one if and only if the URL ends in `/.` or `/..` |
| `ModelHub.CachePathIs` | crates/diaspor-infer/src/hub.rs:281-288 | the path of any entry: slug, at most twelve characters of the digest, file name |
| `ModelHub.SlugIs` | crates/diaspor-infer/src/hub.rs:404-414 | letters, digits, dash and dot stay in place, every other character becomes a dash; slugging twice changes nothing |
| `ModelHub.UrlBasenameIs` | crates/diaspor-infer/src/hub.rs:416-420 | the file name is what follows the last slash of the URL, or `model.bin` |
| `ModelHub.SameCachePathIff` | crates/diaspor-infer/src/hub.rs:281-288 | two well-formed entries share a path if and only if slug, digest prefix and file name agree |
| `ModelHub.GatesAgree` | crates/diaspor-infer/src/hub.rs:304-316 | on well-formed entries the gates of `ensure_all` and of `resolve` agree |
| `ModelHub.EnsureAllCounts` | crates/diaspor-infer/src/hub.rs:388-401 | a successful `ensure_all` counts exactly the entries that pass its gates |
| `ModelHub.EnsureAllCaches` | crates/diaspor-infer/src/hub.rs:383-401 | from any cache, with distinct targets and no partial file that is an earlier target, success leaves every counted entry cached and verified |
| `ModelHub.EnsureAllCachesIff` | crates/diaspor-infer/src/hub.rs:383-401 | from any cache, with distinct targets, success leaves every counted entry cached if and only if no counted entry's target is the partial file of a later entry that has to be downloaded, as decided from the initial cache and the entries alone |
| `ModelHub.EntryCachedIff` | crates/diaspor-infer/src/hub.rs:383-401 | the same entry by entry; an entry that is not cached after success is gone altogether |
| `ModelHub.ClobberWitness` | crates/diaspor-infer/src/hub.rs:404-420 | it does happen: two ids with one slug, one URL ending in `.partial`, an empty cache and an honest server give a successful count of two with the first file absent |
| `LiveSession.Session.constructor` | sdk/typescript/src/streaming.ts:134-142 | an open session with empty buffer and no waiting consumer |
| `LiveSession.Session.Next` | sdk/typescript/src/streaming.ts:217-228 | a buffered event, else done when closed, else the consumer waits |
| `LiveSession.Session.RunCallback` | sdk/typescript/src/streaming.ts:351-360 | a user callback that may pull and may close, run to its end |
| `LiveSession.Session.HandleClose` | sdk/typescript/src/streaming.ts:370-384 | first close only: every waiting consumer gets done in order, then the close callback runs once |
| `LiveSession.Session.DrainPending` | sdk/typescript/src/streaming.ts:374-378 | every waiting consumer is answered done, in order, and none is left |
| `LiveSession.Session.Close` | sdk/typescript/src/streaming.ts:199-207 | idempotent client close |
| `LiveSession.Session.Dispatch` | sdk/typescript/src/streaming.ts:349-368 | callback first, then hand the event to the first waiting consumer or buffer it |
| `LiveSession.PerformIsRun` | sdk/typescript/src/streaming.ts:349-384 | whatever a callback does, re-entering `close()` included, amounts to a definite sequence of the primitive steps |
| `LiveSession.CallsAreRun` | sdk/typescript/src/streaming.ts:199-384 | every sequence of outside calls (next, a received event with its own callback, a close for any reason) is a run of the primitive steps |
| `LiveSession.EveryRunKeepsTheQueue` | sdk/typescript/src/streaming.ts:199-236 | in every execution: buffer and waiters never both non-empty, values handed out followed by the buffer are the enqueued events in order, tickets answered in order and once, the close callback at most once with the recorded reason |
| `LiveSession.DoneOnlyWhenDrained` | sdk/typescript/src/streaming.ts:217-228 | done is given only by a closed session that has handed out every enqueued event |
| `LiveSession.FirstCloseWins` | sdk/typescript/src/streaming.ts:370-384 | in every run the recorded reason and the single `onClose` call carry the reason of the first close; without a close there are none |
| `LiveSession.CallsReason` | sdk/typescript/src/streaming.ts:199-384 | for every sequence of outside calls: the reason is that of the first call that closes, the client if a callback did |
| `LiveSession.DoneFinalIff` | sdk/typescript/src/streaming.ts:209-214 | in every run nothing but done follows a done if and only if nothing is asked for after a late event, one delivered after a close with more asked for than delivered before it |
| `LiveSession.EveryCallKeepsTheQueue` | sdk/typescript/src/streaming.ts:199-384 | both laws for every sequence of outside calls and every callback behaviour: the queue law, and when done is final |
| `LiveSession.ReentrantCloseYieldsAfterDone` | sdk/typescript/src/streaming.ts:349-384 | it does fail: a callback that closes during dispatch makes the waiting consumer see done and the next one a value |
| `LogRotation.FileLogWriter.constructor` | apps/vfs-desktop/src-tauri/src/logging.rs:40-66 | a new writer takes over the files it finds, with no file open |
| `LogRotation.FileLogWriter.RenameFiles` | apps/vfs-desktop/src-tauri/src/logging.rs:83-93 | the downward rename loop gives every name the file of the index below, for any directory content |
| `LogRotation.FileLogWriter.RotateIfNeeded` | apps/vfs-desktop/src-tauri/src/logging.rs:76-101 | rotate exactly when the current file has reached the limit, and forget the open handle |
| `LogRotation.FileLogWriter.GetOrCreateFile` | apps/vfs-desktop/src-tauri/src/logging.rs:103-138 | the open handle, the existing current file or a new one; the handle always is the current file |
| `LogRotation.FileLogWriter.WriteLog` | apps/vfs-desktop/src-tauri/src/logging.rs:140-164 | one record appended to the current file after a possible rotation |
| `LogRotation.FileLogWriter.ReadLogs` | apps/vfs-desktop/src-tauri/src/logging.rs:262-300 | six file names, level filter, newest first, cut to the limit |
| `LogRotation.RenameUpShifts` | apps/vfs-desktop/src-tauri/src/logging.rs:83-93 | each iteration of the rename loop extends the shifted part by one index |
| `LogRotation.SortIsSorted` | apps/vfs-desktop/src-tauri/src/logging.rs:291-292 | the reader's sort is ordered and a permutation |
| `LogRotation.WithLevelKeeps` | apps/vfs-desktop/src-tauri/src/logging.rs:279-286 | the level filter keeps every record of the wanted level as often as it occurs and no other |
| `LogRotation.WriteRefines` | apps/vfs-desktop/src-tauri/src/logging.rs:76-164 | renames, handles and appends on disk refine a step on a plain list of files |
| `LogRotation.RunRefines` | apps/vfs-desktop/src-tauri/src/logging.rs:76-164 | every run of writes and reopenings over any directory leaves exactly the files of the list run over those it found |
| `LogRotation.RetainedIsSuffix` | apps/vfs-desktop/src-tauri/src/logging.rs:76-164 | the files from oldest to newest concatenate to a suffix of what was found followed by all records written; records are dropped only when all files exist |
| `LogRotation.FilesWithinLimit` | apps/vfs-desktop/src-tauri/src/logging.rs:80-82 | with at least one rotated file, every file was below the limit before its last record, or holds a single record |
| `LogRotation.RotatedFilesAreFull` | apps/vfs-desktop/src-tauri/src/logging.rs:80-93 | and no file is rotated early: every file but the current one has reached the limit |
| `LogRotation.ExcessBelowOneRecord` | apps/vfs-desktop/src-tauri/src/logging.rs:80-82 | in bytes, such a file exceeds the limit by less than one record if and only if the limit is not zero |
| `LogRotation.ZeroRotatedKeepsOneFile` | apps/vfs-desktop/src-tauri/src/logging.rs:83-98 | with no rotated file the limit is never enforced: one file keeps every record |
| `LogRotation.ReadsNewestFirst` | apps/vfs-desktop/src-tauri/src/logging.rs:262-300 | after every such run with increasing timestamps the reader returns the newest visible records of the wanted level, as many as the limit allows, newest first, and whatever it leaves out is older; visible are the six newest files, a suffix of all records ever, and with at most five rotated files everything on disk |
| `TokenLedger.TokenStorage.GetTokenBalance` | apps/vfs-desktop/src-tauri/src/commands.rs:1756-1804 | cache, then disk, then a new free balance; a reset of a cached balance is returned but not stored |
| `TokenLedger.TokenStorage.ConsumeTokens` | apps/vfs-desktop/src-tauri/src/commands.rs:1808-1854 | refused amounts, unlimited plans, insufficient balance or a charge stored in cache and on disk |
| `TokenLedger.TokenStorage.PurchaseTokenPlan` | apps/vfs-desktop/src-tauri/src/commands.rs:1901-1949 | unknown plan, or the new plan with the used tokens kept |
| `TokenLedger.PlanTable` | apps/vfs-desktop/src-tauri/src/commands.rs:1858-1897 | the offered plans are free, pro and unlimited, and the reset table gives each the total a purchase gives |
| `TokenLedger.ResetMatchesPurchase` | apps/vfs-desktop/src-tauri/src/commands.rs:1718-1753 | a due reset clears the usage, restores the purchase total and moves the date a month on; a reset that is not due changes nothing |
| `TokenLedger.EveryRunIsSound` | apps/vfs-desktop/src-tauri/src/commands.rs:1718-1949 | in every run, restarts included: cache and disk agree, used plus remaining is the plan total (unlimited stays -1), used is the meter of finite grants since the last effective reset, the reset date is a month after the period began |
| `TokenLedger.GrantedIffAvailable` | apps/vfs-desktop/src-tauri/src/commands.rs:1818-1844 | after every run a consume is granted exactly on an unlimited plan or when it fits the total; a granted finite consume leaves usage within the total, a refused one on a cached balance changes nothing |
| `TokenLedger.NewAccountIsFree` | apps/vfs-desktop/src-tauri/src/commands.rs:1756-1804 | a new account is on the free plan: 1000 unused tokens for thirty days, stored in cache and on disk |
| `TokenLedger.RefusalsChangeNothing` | apps/vfs-desktop/src-tauri/src/commands.rs:1808-1812 | amounts that are not positive and plans that are not offered are refused by name and change nothing |
| `TokenLedger.PurchaseKeepsUsed` | apps/vfs-desktop/src-tauri/src/commands.rs:1914-1944 | a plan change keeps what was used; the remainder is negative exactly when that exceeds the new total |
| `TokenLedger.RestartIsInvisible` | apps/vfs-desktop/src-tauri/src/commands.rs:1758-1785 | losing the cache changes no answer of the next command |
| `PullStream.ProcessLine` | apps/vfs-desktop/src-tauri/src/commands.rs:427-486 | one line: completion, error, percentage when it moved by more than half a point, event |
| `PullStream.PullModel` | apps/vfs-desktop/src-tauri/src/commands.rs:405-529 | the chunk and line loops and the final look at the buffer compute the outcome of the step functions |
| `PullStream.ChunkingIsInvisible` | apps/vfs-desktop/src-tauri/src/commands.rs:414-512 | however the text is chunked, the loop handles exactly the lines of the whole text up to the first completion or error line, and until then its buffer is what follows the last newline |
| `PullStream.SameTextSameOutcome` | apps/vfs-desktop/src-tauri/src/commands.rs:414-529 | two chunkings of one text agree on events, progress, completion and error, and on the final outcome unless the pull completed without error |
| `PullStream.ReportsAreSpaced` | apps/vfs-desktop/src-tauri/src/commands.rs:447-460 | reported percentages are always more than half a point apart and the loop remembers exactly the last one |
| `PullStream.LineReports` | apps/vfs-desktop/src-tauri/src/commands.rs:433-486 | what one line does: nothing without a message, an error recorded, or one event with its status and, exactly if it moved by more than half a point, the percentage `completed / total` |
| `PullStream.ContainsIff` | apps/vfs-desktop/src-tauri/src/commands.rs:438-440 | the completion test looks for the word anywhere in the status |
| `PullStream.LoopStopsAtFirst` | apps/vfs-desktop/src-tauri/src/commands.rs:427-486 | the loop completes or fails exactly as its first stopping line says and has reported the statuses up to there |
| `PullStream.CarriageReturnIsIgnored` | apps/vfs-desktop/src-tauri/src/commands.rs:428 | a carriage return before the newline makes no difference |
| `PullStream.TrimIsMiddle` | apps/vfs-desktop/src-tauri/src/commands.rs:428 | trimming removes exactly the white space at both ends |
| `PullStream.LeftoverIsPrefix` | apps/vfs-desktop/src-tauri/src/commands.rs:481-492 | when a text completes, the buffer ends as a prefix of the remaining text, for every chunking |
| `PullStream.InertTailSameOutcome` | apps/vfs-desktop/src-tauri/src/commands.rs:514-529 | if every prefix of the text after the completion line is inert, all chunkings give the same final outcome |
| `PullStream.LeftoverChangesOutcome` | apps/vfs-desktop/src-tauri/src/commands.rs:514-529 | a prefix that is not inert gives two chunkings of one text with different outcomes |
| `PullStream.OutcomeFixedIff` | apps/vfs-desktop/src-tauri/src/commands.rs:407-529 | for every text, all chunkings end in one outcome if and only if nothing that would be reported follows the newline at which the text completes without error |
| `PullStream.PullAnswers` | apps/vfs-desktop/src-tauri/src/commands.rs:407-529 | the answer from the text alone, for every chunking: the error of the first stopping line, or success if nothing loud follows, with the statuses up to it |
| `PullStream.PullEndsIncomplete` | apps/vfs-desktop/src-tauri/src/commands.rs:407-529 | without a stopping line the pull ends incomplete with every status reported |
| `PullStream.LastWordCounts` | apps/vfs-desktop/src-tauri/src/commands.rs:514-529 | a message after the last newline is still reported and its error still counts |
| `PullStream.RepeatedSuccessMatters` | apps/vfs-desktop/src-tauri/src/commands.rs:514-529 | it does depend on the chunking: a second success without a newline is reported or not |
| `Vision.QuantizeRounds` | crates/diaspor-vision/src/score.rs:249-264 | the code is in 1..255 and is the nearest integer to the scaled clamped value |
| `Vision.QuantizeShape` | crates/diaspor-vision/src/score.rs:249-264 | the code is monotone and antisymmetric about 128 |
| `Vision.QuantizeRoundTrips` | crates/diaspor-vision/src/score.rs:210-214 | every code from 1 to 255 decodes and encodes to itself, and every value decodes within 1/254 of its clamped self |
| `Vision.FromFace` | crates/diaspor-vision/src/score.rs:233-246 | three bytes per landmark, in the order x, y, z; decoding byte `3i + axis` recovers that clamped coordinate within 1/254 |
| `Vision.TargetThenSource` | crates/diaspor-vision/src/pose_rtmpose.rs:300-311 | input index to output index and back is the identity |
| `Vision.SourceThenTarget` | crates/diaspor-vision/src/pose_rtmpose.rs:300-311 | output index to input index and back is the identity, so the layout map is a bijection |
| `Vision.EncodeImagenetChw` | crates/diaspor-vision/src/pose_rtmpose.rs:291-313 | a buffer of the wrong length is refused; otherwise every output element is the normalised pixel value of its channel, row and column |
| `Vision.NormalizeIs` | crates/diaspor-vision/src/pose_rtmpose.rs:66-69 | the published mean and deviation of each channel |
| `Vision.PixelPlace` | crates/diaspor-vision/src/pose_rtmpose.rs:300-311 | channel `c` of pixel `(y, x)` stands at `c*h*w + y*w + x` |
| `Vision.EncodingIsRecoverable` | crates/diaspor-vision/src/pose_rtmpose.rs:300-311 | every input byte is recovered from its place in the output |
| `Vision.ArgmaxChannel` | crates/diaspor-vision/src/pose_rtmpose.rs:256-278 | the first maximum of the channel with its row and column |
| `Vision.SlotsAreDistinct` | crates/diaspor-vision/src/pose_rtmpose.rs:76-94 | the 17 slots are distinct and in range |
| `Vision.SlotsAreJoints` | crates/diaspor-vision/src/pose_rtmpose.rs:76-94 | every named joint of the detector goes to its slot of the body topology |
| `Vision.DecodeHeatmap` | crates/diaspor-vision/src/pose_rtmpose.rs:202-253 | wrong shape, type or length is refused; otherwise each mapped slot holds the first maximum of its own channel with coordinates in [0, 1), and the other 16 slots stay empty |
| `ImageStudio.RankingIsSortedPermutation` | crates/diaspor-imagegen/src/studio.rs:34-57 | the ranking is in policy order and holds every eligible generator as often as registered, and nothing else |
| `ImageStudio.RankingIsStable` | crates/diaspor-imagegen/src/studio.rs:43-56 | generators the policy cannot tell apart are tried in the order in which they were registered |
| `ImageStudio.RankingOrder` | crates/diaspor-imagegen/src/studio.rs:34-57 | what the order is: by cost and then quality for `CostOptimized`, by quality and then cost otherwise, within the budget for `Balanced` |
| `ImageStudio.SelectIsBest` | crates/diaspor-imagegen/src/studio.rs:59-71 | the selected generator is registered, within the budget, and no qualifying one is better |
| `ImageStudio.SelectNone` | crates/diaspor-imagegen/src/studio.rs:59-71 | none is selected if none qualifies |
| `ImageStudio.Generate` | crates/diaspor-imagegen/src/studio.rs:80-101 | the first success in ranking order, all earlier providers having failed; an error only if all eligible ones failed; no provider over budget is ever called |
| `ListingCache.FileListingCache.Get` | apps/vfs-desktop/src/utils/file-cache.ts:40-56 | miss, expiry with deletion, or the stored listing |
| `ListingCache.FileListingCache.Set` | apps/vfs-desktop/src/utils/file-cache.ts:61-83 | at 100 entries the first inserted key is dropped before a new key is added; an existing key keeps its place |
| `ListingCache.FileListingCache.Invalidate` | apps/vfs-desktop/src/utils/file-cache.ts:88-91 | exactly that key is dropped |
| `ListingCache.FileListingCache.InvalidateSource` | apps/vfs-desktop/src/utils/file-cache.ts:96-104 | exactly the keys with the source prefix are dropped |
| `ListingCache.KeysAreUnambiguous` | apps/vfs-desktop/src/utils/file-cache.ts:33-35 | for colon-free source ids a key belongs to one pair and starts with one source prefix |
| `ListingCache.ColonsCollide` | apps/vfs-desktop/src/utils/file-cache.ts:33-35 | two pairs share a key if and only if the source id or the path holds a colon |
| `ListingCache.RunIsOrdered` | apps/vfs-desktop/src/utils/file-cache.ts:61-104 | in every run the cache holds at most 100 listings and its order lists exactly the stored keys |
| `ListingCache.OrderIsInsertionOrder` | apps/vfs-desktop/src/utils/file-cache.ts:61-83 | in every run the order of the map is the order in which the stored keys were inserted; setting or hitting a key again does not move it |
| `ListingCache.VictimIsLruIff` | apps/vfs-desktop/src/utils/file-cache.ts:70-77 | an insertion into a full cache drops exactly the first inserted key; that key is the least recently used one if and only if it was not set again or hit after another stored key was last used |
| `ListingCache.HitKeyIsDropped` | apps/vfs-desktop/src/utils/file-cache.ts:70-77 | the eviction called least-recently-used does drop the key that was hit last |
| `ListingCache.HitIsFreshAndLatest` | apps/vfs-desktop/src/utils/file-cache.ts:40-104 | every hit is the latest uninvalidated set for that very pair and no older than the time to live |
| `ListingCache.MissLeavesNothing` | apps/vfs-desktop/src/utils/file-cache.ts:40-56 | after a lookup the key is stored if and only if it was a hit, so an expired listing is gone; other keys are untouched |
| `ListingCache.HitIff` | apps/vfs-desktop/src/utils/file-cache.ts:40-104 | while the clock has not gone back, a lookup hits if and only if the latest set is still fresh and no insertion met it as the eldest of 100 since |
| `ListingCache.FewKeysStay` | apps/vfs-desktop/src/utils/file-cache.ts:70-77 | nothing is evicted while at most 100 different listings were ever set |

## Left out

- JWT, HMAC, SHA-256 and base64 internals: library code; the digest is a parameter.
- HTTP, WebSocket, Tauri, process spawning, GPU and system metrics: I/O plumbing.
- React components, provider tables, website and release checkers: user interface or static data.
- Stub backends, `LocalBackend`, FUSE and WinFsp adapters: they return errors or wrap the host.
- `MultiSink`, `generate_and_compose`, `FileIngest`, the adapter table and GPU history: only easy members.
- Timestamps on file-system nodes and the access-mode open flags: recorded or ignored by the backend.
- `clear_logs` next to a live writer, Blob decoding and per-chunk lossy UTF-8: they depend on the operating system or runtime.
- Account creation, invalid stored reset dates and failing saves of the token ledger: saves are taken to succeed.
- The model listing that follows an incomplete pull: a further network call.
- CopyLoops.RunPut: standard input is the sequence of non-empty reads, each at most one buffer; read errors are not modelled.
- LogRotation.FileLogWriter.WriteLog: concurrent writers and file-system errors are not modelled.
- ModelHub.Hub.Resolve: creating directories, reading and renaming are taken to succeed; only removal may fail.
- Vision.QuantizeRounds: `f32` rounding and not-a-number inputs are not modelled.
- Vision.ArgmaxChannel: values are finite, so the negative-infinity start value never survives.
- Vision.DecodeHeatmap: the tensor holds numbers; the byte encoding of `f32` is not modelled.
- ImageStudio.Generate: costs are finite reals, so the total order on floats is the usual order.
