# Verified model of sccache

sccache stands in for a compiler: it preprocesses, looks a key up in a store, and either unpacks what an earlier
compile left there or runs the compiler and stores the result. This project models the five parts of it where
correctness depends on several functions at once, and proves what they promise.

- **The cached compile path** (`CachedCompile`, `CacheKeys`, `CacheTransparency`, `SharedOutputs`, `OneRequest`,
  `CompileService`, `DiskStorage`, `DiskTransparency`, `DiskRaces`, `Assumptions`, `Archives`). A state machine with one step for each callback of
  `get_cached_or_compile` and for each file operation of the closures that run beside it, over a store that may drop any
  entry at any time and outlives the daemon. `CacheTransparent` says that the cache agrees with the compiler in every
  interleaved run, and `TransparentExactly` under which condition and under no weaker one. `DiskTransparent` and
  `DiskTransparentExactly` say the same of the daemon on its disk cache, where a hit goes on reading an archive that a
  put may be writing. `CompileService` has the loops, branches and error returns as methods on a mutable daemon; a call
  that nothing interrupts ends as a run of that machine with one request does (`OneRequest`). `CacheKeys` says what a
  key depends on.
- **The LRU disk cache** (`Recency`, `LruDisk`, `LruStartup`, `LruRestart`, `LruInclusion`, `LruDiskCaches`). A recency
  index and a directory that must agree; what eviction, start-up and restart keep; and why a larger cache never loses
  a hit. `LruDiskCaches` has the classes that update index and directory in place, each method proved equal to the
  functions the theorems are about.
- **The wire protocol** (`Wire`, `Messages`, `MessageRoundTrip`, `WireBytes`, `UnknownFields`, `Utf8Text`,
  `MessageStreams`, `Framed`, `Framing`). Varints, nested messages byte by byte, sizes and length prefixes, and a stream
  decoder whose answers do not depend on how the stream is cut.
- **Command lines** (`Paths`, `PathFacts`, `ResponseFiles`, `ArgumentUnits`, `OneMoreOption`, `GccArguments`,
  `GccFlags`, `GccParser`, `MsvcArguments`, `MsvcFlags`, `MsvcParser`, `MsvcDepfile`, and for both kinds of compiler `GccCommandLines` and `MsvcCommandLines` in
  CommandLines.dfy, `GccOpenEnds` and `MsvcOpenEnds` in OpenEnds.dfy). Lazy `@file` expansion, what the parsers make
  of each option, results that can be printed and parsed again, and what the rebuilt command lines mean.
- **The server** (`ServerStatistics`, `IdleShutdown`, `ActiveHandles`). Statistics, the idle timer and the counter of
  live handles, each as a state machine with one step for each event-loop callback.

`Octets`, `Options`, `Text` and `CompilerArguments` hold what the others share.

## Results that differ from what one might expect

- Transparency depends on which requests may be under way together. Two compiles clash when they leave different
  contents in one file, or the same when one of them can have it empty for a while: a hit creates each output before it
  fills it, and a compiler may write in place. `SharedOutputs.TransparentExactly` proves, for any compiler and any
  policy of what may overlap, that every run is transparent if and only if the policy lets no two requests overlap that
  can clash; `DisjointExactly` proves that a policy does for every compiler if and only if it keeps requests with a
  common output file apart. The source has no such policy. `SharedOutputPoisons` gives a run with a wrong hit for every
  clash of a successful compile; `EditedWhileCompiling` is one with two texts of one file, `SameCompileRepeated` one
  with a single compile asked for several times, which ends with an empty object in the store.
- A put of a key empties its archive while a hit on that key may still be reading it, and a stream that cannot be read
  counts as empty. `DiskRaces.DiskTransparentExactly` proves that on the disk cache every run is transparent if and only
  if puts wait for hits to be read, for the keys of compiles that print something; `WarningIsLost` is a run without
  such waiting, and without any two requests overlapping, in which a warning is lost.
- Among the compiles that arise, equal keys must mean equal outcomes and equal output names (`KeyDetermines`).
  `Assumptions.EchoMeetsThem` shows compilers for which this and `Produces` hold, and `Archives.ArchiveIsFaithful` an
  archive format that does what is taken of the zip format.
- Inserting a key that is already indexed writes the new file before evicting, so it can delete the file just written,
  as in `LruDisk.ReinsertDeletesItsFile`. `InsertAgreement` and `RunAgreement` give the exact condition under which
  index and disk keep agreeing, and `InsertPanics` says when a later call panics.
- `insert_file` renames and so keeps the old mtime, as in `LruRestart.RenamedFileComesBackOldest`. `InsertFileRestart`
  gives the exact condition, on the cache before the call, under which the recency order survives a restart.
- A command line that ends in an option waiting for its value is accepted. Rebuilt lines that put something after it
  then mean something else: `GccCommandLines.AttemptParses`, `PreprocessorLine` and `MsvcCommandLines.AttemptParses`
  give the exact conditions, `PreprocessorLine` for both kinds of compiler, and
  `GccOpenEnds` and `MsvcOpenEnds` show such lines.
- The parser of `@file` contents rejects any file with a quote in it, while the documentation it quotes describes
  quoting; the model follows the code.

## Model

| member | source | states |
|---|---|---|
| CacheTransparency.CacheTransparent | src/compiler/compiler.rs:294-488 | from any store of packed compiles, in every interleaving of file operations, lookups, drops, late puts and restarts, where requests that overlap cannot clash, each request that finishes gets the status, streams and output files of a direct compile, and all that is stored packs a successful compile for its key |
| CacheTransparency.StepIsTransparent | src/compiler/compiler.rs:323-488 | each single step keeps the invariant on store, pending puts and requests under way, and whatever it finishes is answered as by a direct compile |
| CacheTransparency.CreateKeepsInv | src/compiler/compiler.rs:373-374 | an output that a hit has created empty disturbs no request under way |
| CacheTransparency.FillKeepsInv | src/compiler/compiler.rs:375 | filling it puts the compiler's content there, and never fails for want of an object |
| CacheTransparency.UnpackKeepsInv | src/compiler/compiler.rs:365-388 | a hit unpacked to the end gives the compiler's status, streams and files |
| CacheTransparency.WriteKeepsInv | src/compiler/compiler.rs:426 | each output that the compiler writes keeps the invariant |
| CacheTransparency.ExitKeepsInv | src/compiler/compiler.rs:427-444 | when the compiler exits its outputs are there; failed and non-cacheable runs are answered then |
| CacheTransparency.ReadKeepsInv | src/compiler/compiler.rs:449-453 | each output file read while packing still holds this request's own content |
| CacheTransparency.PackKeepsInv | src/compiler/compiler.rs:446-481 | what was read, one file after the other, packs this request's own compile |
| CacheTransparency.UnpackPacked | src/cache/cache.rs:85-134 | what unpacks from an entry is the compile that was packed, also for a different request with the same key |
| CacheTransparency.StreamNamesApart | src/compiler/compiler.rs:370-371 | the stream objects never collide with output objects |
| CacheTransparency.OthersUndisturbed | src/compiler/compiler.rs:371-377 | emptying or writing an output disturbs no other request under way that cannot clash with this one |
| CacheTransparency.ForcedRecachesBypassTheStore | src/compiler/compiler.rs:350-356 | in every run, a forced request is never answered from the store, and exactly forced ones report a forced recache |
| CacheKeys.EqualKeys | src/compiler/compiler.rs:340-348 | with a hash that is injective in its parts, equal keys mean equal compiler digest, equal preprocessed source and, where the arguments do not name the object, equal concatenated common arguments |
| CacheKeys.SameKeys | src/compiler/compiler.rs:340-348 | the other way: nothing else makes two keys differ |
| CacheKeys.OptionsMatter | src/compiler/compiler.rs:340-348 | two options of one length at one place, such as `-O0` and `-O2`, make two keys |
| CacheKeys.ObjectNameIsNoMatter | src/compiler/compiler.rs:341-346 | an argument equal to the object's file name makes no difference to the key, wherever it is |
| CacheKeys.OutputFileIsName | src/compiler/compiler.rs:141-143 | that file name is what follows the last slash of the object's path |
| CacheKeys.SameFileSameDirectory | src/compiler/compiler.rs:360-363 | one relative path is one file exactly in one working directory; an absolute one always is |
| CacheKeys.RelativeOrAbsolute | src/compiler/compiler.rs:360-363 | a relative path names the same file as the absolute path below the working directory |
| SharedOutputs.TransparentExactly | src/compiler/compiler.rs:294-488 | for any compiler and any policy of what may overlap, every admitted run is transparent if and only if no two requests that may overlap can clash |
| SharedOutputs.DisjointExactly | src/compiler/compiler.rs:356-377 | a policy is transparent with every compiler if and only if it keeps requests with a common output path apart |
| SharedOutputs.SharedOutputPoisons | src/compiler/compiler.rs:446-488 | whenever an output of a successful compile can be overwritten or emptied by a request that may overlap it, some run stores an entry that packs no compile, and a later request with that key gets a hit with wrong files |
| SharedOutputs.EditedWhileCompiling | src/compiler/compiler.rs:446-458 | the concrete case of one file compiled again, with other text, while its first compile is under way: a wrong entry and a wrong hit |
| SharedOutputs.SameCompileRepeated | src/compiler/compiler.rs:371-377 | the concrete case of one compile asked for several times: a hit has just created the object file when another request packs it, and an empty object replaces a good entry |
| CompileService.Daemon.UnpackOutputs | src/compiler/compiler.rs:371-377 | succeeds exactly when every output has an object, then leaves those objects in the files, and touches only the request's own files |
| CompileService.Daemon.PackOutputs | src/compiler/compiler.rs:450-458 | succeeds exactly when every output file exists, and the entry then holds their contents |
| CompileService.Daemon.RunCompiler | src/compiler/compiler.rs:426-427 | the output files hold what the compiler produced; no other file changes |
| CompileService.Daemon.ServeHit | src/compiler/compiler.rs:364-388 | a hit answers with the compiler's output and files |
| CompileService.Daemon.Compile | src/compiler/compiler.rs:411-488 | answer or error in all cases; a put is left pending exactly for a cacheable success that could be packed, with the packed compile |
| CompileService.Daemon.LookUpOrCompile | src/compiler/compiler.rs:350-407 | the kind of answer, an error exactly when a step that is reached fails, and otherwise the direct compile's output and files; only the request's own outputs change |
| CompileService.Daemon.GetCachedOrCompile | src/compiler/compiler.rs:294-409 | an answered call ends as some run of the state machine with this request alone does: same answer, files and put. A forced request is never a hit, a miss is a forced recache exactly for forced ones, a stored and available key is a hit otherwise; every error return; the invariant on store and pending puts is kept |
| OneRequest.AloneHits | src/compiler/compiler.rs:350-388 | files that hold a stored entry's objects, with nothing else changed, are the end of a run that looks up, creates, fills and is answered as a hit |
| OneRequest.AloneMisses | src/compiler/compiler.rs:389-488 | files that hold the compiler's outputs, with nothing else changed, are the end of a run that compiles, and packs exactly for a cacheable success |
| CompileService.Daemon.EndPut | src/compiler/compiler.rs:469-481 | a put may end late and in any order; the store still holds only packed compiles for their keys |
| DiskStorage.KeyPathInjective | src/cache/disk.rs:55-57 | different keys have different paths |
| DiskStorage.KeyPathParts | src/cache/disk.rs:55-57 | the path has one directory for each of the first two characters, and the whole key below |
| DiskStorage.PutRefines | src/cache/disk.rs:82-94 | for any state, re-inserts included, a put adds nothing but its entry; a too large one changes nothing |
| DiskStorage.PutThenGet | src/cache/disk.rs:60-94 | a put that fits is done, and the entry is then found if and only if eviction did not reach its own file |
| DiskStorage.GetRefines | src/cache/disk.rs:60-75 | a lookup changes no contents, never reaches the panic, misses exactly keys that are not indexed, and hits exactly whole entries that are stored |
| DiskStorage.HoldsLastPut | src/cache/disk.rs:59-94 | after any run from any directory, restarts included, the file of a key holds what was last put under it, or what it held at first |
| DiskStorage.HitIsLastPut | src/cache/disk.rs:59-94 | after any such run a hit is the entry last put under that key, or what was there at first |
| DiskTransparency.StepRefines | src/cache/disk.rs:59-94 | with guarded puts, each step of the daemon on its disk cache, hits reading open archives included, is a step on a store that may drop entries, or none |
| DiskTransparency.DiskTransparent | src/cache/disk.rs:59-94 | opened on any directory of packed compiles, with puts that wait for the hits on keys with output, every run with evictions, re-inserts and restarts answers as a direct compile does |
| DiskRaces.DiskTransparentExactly | src/cache/disk.rs:59-94 | every such run is transparent if and only if puts wait for the hits on each key whose compile prints something |
| DiskRaces.WarningIsLost | src/compiler/compiler.rs:367-371 | a concrete run, with no two requests overlapping, in which a hit is answered without what the compiler printed |
| DiskStorage.DiskCache.Get | src/cache/disk.rs:60-75 | the method on the shared cache is that lookup |
| DiskStorage.DiskCache.FinishPut | src/cache/disk.rs:82-94 | the method on the shared cache is that put, and adds at most its own entry |
| Recency.MakeRoomIsMinimal | lru-disk-cache/src/lib.rs:168-183 | evicting while the rest is too large removes the shortest prefix that makes room |
| Recency.MakeRoomThenAdd | lru-disk-cache/src/lib.rs:168-184 | making room and then adding is the same as adding and then evicting: the underlying insert evicts nothing |
| Recency.LongestFitUnique | lru-disk-cache/src/lib.rs:168-183 | there is only one longest suffix that fits |
| LruDisk.EvictRemovesOldest | lru-disk-cache/src/lib.rs:172-183 | for a storable size the loop ends without a panic, having removed exactly the oldest entries and their files |
| LruDisk.Evicted | lru-disk-cache/src/lib.rs:172-183 | the number evicted is the least that makes room |
| LruDisk.InsertOutcome | lru-disk-cache/src/lib.rs:188-202 | the whole state after an insert, which always succeeds when the size can be stored |
| LruDisk.InsertAgreement | lru-disk-cache/src/lib.rs:188-202 | index and disk still agree after an insert if and only if evicting only entries older than the key makes enough room |
| LruDisk.InsertPanics | lru-disk-cache/src/lib.rs:172-183 | an insert panics if and only if the file of some entry that eviction reaches is missing |
| LruDisk.ReinsertDeletesItsFile | lru-disk-cache/src/lib.rs:188-202 | a concrete re-insert after which the key is indexed, its file gone, a lookup an error and the next insert a panic |
| LruDisk.GetAgreement | lru-disk-cache/src/lib.rs:235-243 | a lookup keeps agreement, and opens exactly the files on disk |
| LruDisk.RunAgreement | lru-disk-cache/src/lib.rs:168-243 | index and disk agree throughout a run if and only if every re-insert in it is harmless |
| LruStartup.PlacedInOrder | lru-disk-cache/src/lib.rs:43-60 | sorting by mtime keeps the listing in order |
| LruStartup.ScanStep | lru-disk-cache/src/lib.rs:149-160 | one turn of the scan: what is indexed is the longest recent run of what was seen that fits, and no add fails |
| LruStartup.StartupOptimal | lru-disk-cache/src/lib.rs:149-160 | for any directory, files above the capacity go and exactly the longest run of most recent others that fits stays, on disk and indexed, in mtime order |
| LruRestart.RunIsChronological | lru-disk-cache/src/lib.rs:188-243 | under a rising clock mtimes rise strictly along the recency order, in every run with harmless inserts |
| LruRestart.ListingUnique | lru-disk-cache/src/lib.rs:43-60 | with distinct mtimes there is only one listing in order |
| LruRestart.RebuildIsIdentity | lru-disk-cache/src/lib.rs:130-160 | a cache rebuilt on a chronological directory is the same cache, and removes no file |
| LruRestart.RestartEquivalence | lru-disk-cache/src/lib.rs:43-243 | from any directory with distinct mtimes, after any clocked run, the rebuilt cache equals the running one |
| LruRestart.InsertFileRestart | lru-disk-cache/src/lib.rs:214-226 | after a rename, every restart finds the recency order if and only if the kept mtime is later than those of the files that the insert keeps |
| LruRestart.RenamedFileComesBackOldest | lru-disk-cache/src/lib.rs:214-226 | a concrete rename after which a restart has the order reversed |
| LruInclusion.ContentsAreRecentHistory | lru-disk-cache/src/lib.rs:168-243 | after any accesses the contents are the longest suffix of the recency history that fits |
| LruInclusion.LargerCacheKeepsHits | lru-disk-cache/src/lib.rs:168-243 | every hit at a smaller capacity is a hit with the same bytes at a larger one |
| LruDiskCaches.GetAllFiles | lru-disk-cache/src/lib.rs:43-60 | every file once, with its size, in mtime order |
| LruDiskCaches.LruDiskCache.constructor | lru-disk-cache/src/lib.rs:130-160 | the new cache is the start-up scan of some listing of the directory, and index and disk agree |
| LruDiskCaches.LruDiskCache.AddFile | lru-disk-cache/src/lib.rs:168-186 | index, directory and reply are those of the specification; no failure for a storable size |
| LruDiskCaches.LruDiskCache.InsertBy | lru-disk-cache/src/lib.rs:188-202 | as specified; too large exactly above the capacity; agreement kept exactly when the key's own file is |
| LruDiskCaches.LruDiskCache.InsertBytes | lru-disk-cache/src/lib.rs:205-211 | the insert with the current time |
| LruDiskCaches.LruDiskCache.Get | lru-disk-cache/src/lib.rs:235-243 | recency, mtime and reply are those of the specification |
| LruDiskCaches.LruDiskCache.Size | lru-disk-cache/src/lib.rs:140 | the sum of the indexed sizes, at most the capacity |
| Wire.VarintRoundTrip | src/protocol.rs:572-596 | a varint of up to 64 bits reads back with exactly what follows it |
| Wire.VarintPart | src/server.rs:846-852 | any proper prefix of a varint reads as truncated |
| Wire.VarintSizes | src/protocol.rs:1343-1364 | the size by thresholds is the number of bytes written |
| Wire.Int32RoundTrip | src/protocol.rs:2171-2213 | a signed 32-bit value survives sign extension to 64 bits and truncation back |
| Wire.NegativeTakesTenBytes | src/protocol.rs:2171-2192 | a negative value takes ten bytes |
| Wire.MergeWritten | src/protocol.rs:549-596 | merging written bytes is merging the fields one after another |
| UnknownFields.Skipped | src/protocol.rs:549-570 | a field that a message does not know, of any wire type and at any place, changes nothing that is read |
| UnknownFields.RequestRefused | src/protocol.rs:549-570 | a request with text that is not UTF-8 is refused |
| Utf8Text.ValidExactly | src/protocol.rs:549-570 | what counts as text is exactly what some sequence of Unicode characters is encoded as |
| MessageRoundTrip.CompileRoundTrip | src/protocol.rs:549-600 | a Compile message reads back from its bytes |
| MessageRoundTrip.RequestOutcome | src/protocol.rs:539-546 | a request is refused exactly when its compile command lacks a required field, and reads back otherwise |
| MessageRoundTrip.RequestRoundTrip | src/protocol.rs:935-1027 | every request with its required fields reads back from its bytes, nested message included |
| MessageRoundTrip.StatisticRoundTrip | src/protocol.rs:1308-1385 | a statistic with any of its three kinds of value reads back |
| MessageRoundTrip.StatsRoundTrip | src/protocol.rs:1543-1579 | repeated statistics read back in order |
| MessageRoundTrip.ShuttingDownRoundTrip | src/protocol.rs:1728-1765 | statistics nested two deep read back |
| MessageRoundTrip.FinishedRoundTrip | src/protocol.rs:2139-2213 | exit status, negative ones included, and both streams read back |
| MessageRoundTrip.ResponseRoundTrip | src/protocol.rs:2913-3035 | every response with its required fields reads back from its bytes |
| WireBytes.CompileOnTheWire | src/protocol.rs:588-600 | the bytes of a Compile message, tag by tag |
| WireBytes.RequestOnTheWire | src/protocol.rs:1000-1027 | the bytes of each kind of request |
| WireBytes.StatisticOnTheWire | src/protocol.rs:1366-1385 | the bytes of a statistic with each kind of value |
| WireBytes.StatsOnTheWire | src/protocol.rs:1571-1579 | the bytes of a list of statistics |
| WireBytes.ShuttingDownOnTheWire | src/protocol.rs:1756-1765 | the bytes of the statistics sent at shutdown |
| WireBytes.FinishedOnTheWire | src/protocol.rs:2194-2213 | the bytes of a finished compile, streams before the status |
| WireBytes.ResponseOnTheWire | src/protocol.rs:2998-3035 | the bytes of each kind of response |
| MessageStreams.CodedInputStream.MergeAll | src/protocol.rs:549-570 | the reading loop computes the merge and consumes everything |
| MessageStreams.ComputeCompileSize | src/protocol.rs:572-586 | the size is the number of bytes written |
| MessageStreams.ComputeRequestSize | src/protocol.rs:973-998 | the size is the number of bytes written, and every nested cached size too |
| MessageStreams.ComputeStatisticSize | src/protocol.rs:1343-1364 | the size is the number of bytes written |
| MessageStreams.ComputeStatsSize | src/protocol.rs:1560-1569 | the size is the number of bytes written, and each element's cached size too |
| MessageStreams.ComputeShuttingDownSize | src/protocol.rs:1745-1754 | the size is the number of bytes written, nested sizes too |
| MessageStreams.ComputeFinishedSize | src/protocol.rs:2171-2192 | the size is the number of bytes written |
| MessageStreams.ComputeResponseSize | src/protocol.rs:2963-2996 | the size is the number of bytes written, nested sizes at every depth too |
| MessageStreams.WriteNestedHeader | src/protocol.rs:1004-1009 | the length prefix taken from a cached size counts exactly the bytes that follow |
| MessageStreams.WriteRequest | src/protocol.rs:1000-1027 | with the sizes just computed, what is appended is the encoding of the request |
| MessageStreams.WriteStatistics | src/protocol.rs:1571-1579 | the loop appends every statistic with its own length prefix |
| MessageStreams.WriteShuttingDown | src/protocol.rs:1756-1765 | the nested encoding is appended with a correct prefix |
| MessageStreams.WriteFinished | src/protocol.rs:2194-2213 | the encoding is appended |
| MessageStreams.WriteResponse | src/protocol.rs:2998-3035 | with the sizes just computed, what is appended is the encoding of the response |
| MessageStreams.SizedRequestEncodes | src/protocol.rs:973-1027 | computing sizes is idempotent and does not change the encoding |
| MessageStreams.SizedResponseEncodes | src/protocol.rs:2963-3035 | computing sizes is idempotent and does not change the encoding |
| Framed.ChunkingDoesNotMatter | src/server.rs:836-862 | for any decoder of frames and any split into chunks: all messages in order, each with the chunk that completes it, nothing left over |
| Framed.CompleteCounts | src/server.rs:846-852 | the number of complete frames in a prefix is exact: the next one does not fit |
| Framing.RequestFrames | src/server.rs:836-862 | a frame decodes to its request and is drained whole, and no proper prefix of it decodes |
| Framing.DecodingIgnoresChunking | src/server.rs:836-862 | however frames of requests are cut into chunks, exactly those requests come out, in order, none early, and the buffer ends empty |
| Framing.DecodeRequest | src/server.rs:836-862 | one call on the buffer: a decoded message is drained, otherwise the buffer stays |
| Framing.Receive | src/server.rs:836-862 | the turns after a chunk drain every complete frame |
| Framing.EncodeTo | src/server.rs:864-870 | one whole frame is appended |
| Framing.ResponseReads | src/client.rs:65-77 | the client reads back a framed response and leaves what follows it |
| Framing.ResponseBreaksOff | src/client.rs:65-77 | every proper prefix of a framed response is an error, and nothing of it is left |
| Framing.ServerConnection.ReadOneResponse | src/client.rs:65-77 | answer or error and what is left of any stream; a framed response comes back whole, and one that breaks off is an error |
| Framing.ServerConnection.Request | src/client.rs:55-62 | on any stream, one frame goes out and one response is read; a framed reply comes back and exactly its bytes are consumed |
| ResponseFiles.ExpandConcat | src/compiler/gcc.rs:256-312 | expansion is done argument by argument |
| ResponseFiles.NothingLeft | src/compiler/gcc.rs:256-312 | nothing in an expansion can be expanded further |
| ResponseFiles.ExpansionIsFinal | src/compiler/gcc.rs:256-312 | expanding twice changes nothing; an argument stays exactly when it names no readable file without quotes |
| ResponseFiles.SplitJoin | src/compiler/gcc.rs:305-309 | plain words written with spaces between them split back into the same words |
| ResponseFiles.Substitution | src/compiler/gcc.rs:297-309 | plain arguments moved into a response file expand to the same arguments, at any position |
| ResponseFiles.SplitLaid | src/compiler/gcc.rs:305-309 | words with any white space before, between and after them split back into the same words |
| ResponseFiles.SubstitutionInAnyLayout | src/compiler/gcc.rs:297-309 | arguments moved into a response file expand to the same arguments in any layout, one to a line for instance |
| ResponseFiles.QuotedStays | src/compiler/gcc.rs:297-307 | an argument stays as it is when its file is missing or has a quote in it |
| ResponseFiles.ExpandIncludeFile.Next | src/compiler/gcc.rs:259-311 | the stack iterator terminates on acyclic files and yields the depth-first expansion one argument at a time |
| ArgumentUnits.UnitsConserve | src/compiler/gcc.rs:91-145 | grouping into units loses, adds and reorders no token |
| ArgumentUnits.ValuesKept | src/compiler/gcc.rs:91-145 | no flag is separated from its value |
| ArgumentUnits.BucketAgain | src/compiler/gcc.rs:91-145 | a bucket's tokens group into the same units again, with nothing else around them |
| ArgumentUnits.UnitsJoin | src/compiler/gcc.rs:91-145 | a line that goes on keeps its units, unless its last flag was waiting for a value, which is then the next argument |
| GccArguments.TokenConservation | src/compiler/gcc.rs:91-191 | the tokens of an accepted line are, in order, the units of the common, preprocessor, input, `-c`, `-o` and `-MT` arguments; a target pair is appended exactly when dependencies are asked for, with the last `-MT` value or else the object |
| GccArguments.AcceptedInput | src/compiler/gcc.rs:138-163 | input, object and common arguments of an accepted line are among its tokens, and the input is one |
| GccArguments.PrintThenParse | src/compiler/clang.rs:101-107 | the rebuilt line is accepted with the same input, extension, outputs and common arguments, whichever options take values |
| GccArguments.PrintThenParseExpanded | src/compiler/clang.rs:101-107 | the same when the original line used response files |
| GccArguments.SubstitutionParses | src/compiler/gcc.rs:73-191 | moving plain arguments into a response file changes no parse result |
| GccArguments.SubstitutionParsesInAnyLayout | src/compiler/gcc.rs:73-191 | moving arguments into a response file of any layout changes no parse result |
| GccArguments.AcceptedOutputs | src/compiler/gcc.rs:165-177 | an accepted line has an object and at most the outputs known by name |
| GccFlags.OtherOption | src/compiler/gcc.rs:132-134 | wherever it is put on a line, an option that is not named becomes one more common argument, and nothing else changes |
| GccFlags.OptionWithValue | src/compiler/gcc.rs:102-107 | so does an option of the table, with its value whatever that looks like |
| GccFlags.TablesAreTables | src/compiler/clang.rs:43-49 | no option of GCC's and Clang's tables is one the parser names |
| GccFlags.SplitDwarf | src/compiler/gcc.rs:95-98 | `-gsplit-dwarf` is a common argument and adds exactly one output |
| GccFlags.SplitDwarfBeside | src/compiler/gcc.rs:171-177 | that output is in the object's directory with the object's stem and `.dwo` |
| GccFlags.DependencyMode | src/compiler/gcc.rs:124-130 | `-M`, `-MM`, `-MD` and `-MMD` go to the preprocessor, whose arguments then end in one `-MT` pair, with the object as target when the line names none; nothing else changes |
| GccFlags.DependencyFile | src/compiler/gcc.rs:108-113 | `-MF` and `-MQ` go to the preprocessor with their value, and nothing else changes |
| GccFlags.DependencyTarget | src/compiler/gcc.rs:178-180 | the last `-MT` is the target at the end of the preprocessor's arguments, if dependencies are asked for, and changes nothing otherwise |
| GccFlags.CannotBeCached | src/compiler/gcc.rs:115-123 | module and profile options and a remaining `@` argument make any line uncacheable |
| GccFlags.OutputNamed | src/compiler/gcc.rs:94 | the last `-o` names the object |
| GccFlags.CompileNamed | src/compiler/gcc.rs:146-149 | without `-c` no line is accepted; with it none is refused as no compilation |
| GccFlags.OneInputOnly | src/compiler/gcc.rs:136-143 | one more input, or standard input, makes a line uncacheable |
| GccFlags.SmallestLine | src/compiler/gcc.rs:150-170 | `-c input -o object` is accepted exactly for the four known extensions |
| PathFacts.ExtensionOf | src/compiler/gcc.rs:154 | the extension is what follows the last dot of the file name |
| PathFacts.WithExtensionOf | src/compiler/gcc.rs:172-173 | a replaced extension leaves directory and stem alone |
| GccCommandLines.AttemptParses | src/compiler/clang.rs:78-85 | the first attempt, with a temporary input last, means the accepted line from that input if and only if the line did not end in a common option waiting for a value |
| GccCommandLines.PreprocessorLine | src/compiler/gcc.rs:203-207 | the preprocessor gets the original preprocessor and common units and the target if and only if the line did not end in a preprocessor option waiting for a value, or nothing follows it |
| GccOpenEnds.BareDefine | src/compiler/clang.rs:78-85 | a line that ends in `-D` is accepted, and the first attempt does not mean it |
| GccOpenEnds.BareDepFile | src/compiler/gcc.rs:203-207 | a line that ends in `-DX -MF` is accepted, and the preprocessor takes `-DX` for a file name |
| GccParser.SeeTracks | src/compiler/gcc.rs:91-145 | the loop's variables hold what the arguments so far amount to, and it stops exactly when they are refused |
| GccParser.NextUnit | src/compiler/gcc.rs:91-118 | an argument and its value are taken from the lazy iterator together |
| GccParser.ParseArguments | src/compiler/gcc.rs:73-192 | the one-pass parser over lazily expanded arguments is the parse of the full expansion |
| GccParser.ParseGcc | src/compiler/gcc.rs:50-71 | the same with GCC's options that take values |
| GccParser.ParseClang | src/compiler/clang.rs:43-49 | the same with Clang's |
| MsvcArguments.PrintThenParse | src/compiler/msvc.rs:375-380 | the rebuilt line is accepted with the same input, extension, outputs and common arguments, and no depfile |
| MsvcArguments.TokenConservation | src/compiler/msvc.rs:103-208 | as for GCC, with `-Fo`, `-deps` and the program database, each value from a token with its flag |
| MsvcFlags.OtherOption | src/compiler/msvc.rs:147-149 | wherever it is put on a line, an option that is not named becomes one more common argument, and nothing else changes |
| MsvcFlags.ForcedInclude | src/compiler/msvc.rs:122-128 | so does `-FI`, with its value whatever that looks like |
| MsvcFlags.ObjectNamed | src/compiler/msvc.rs:119-121 | the last `-Fo` names the object, and nothing else changes |
| MsvcFlags.DependencyFile | src/compiler/msvc.rs:129-131 | the last `-deps` names the dependency file, and nothing else changes |
| MsvcFlags.DatabaseNamed | src/compiler/msvc.rs:142-145 | `-Fd` is a common argument; with `-Zi` on the line the last one names the program database, without it none is an output |
| MsvcFlags.DebugInformation | src/compiler/msvc.rs:138-197 | `-Zi` is a common argument and adds the program database, and without a named one the line is uncacheable |
| MsvcFlags.CannotBeCached | src/compiler/msvc.rs:132-137 | `-showIncludes`, a response file and each option with more output files make any line uncacheable |
| MsvcFlags.CompileNamed | src/compiler/msvc.rs:163-166 | without `-c` no line is accepted; with it none is refused as no compilation |
| MsvcFlags.OneInputOnly | src/compiler/msvc.rs:150-157 | a second input makes a line uncacheable |
| MsvcFlags.SmallestLine | src/compiler/msvc.rs:167-200 | `-c input -Foobject` is accepted exactly for an input with an extension |
| MsvcCommandLines.AttemptParses | src/compiler/msvc.rs:356-362 | the first attempt, with a temporary input last, means the accepted line from that input if and only if the line did not end in a bare `-FI` |
| MsvcCommandLines.PreprocessorLine | src/compiler/msvc.rs:260-268 | the preprocessor gets the original common units, and is asked for included files when they are wanted, if and only if the line did not end in a bare `-FI` or they are not wanted |
| MsvcOpenEnds.BareForcedInclude | src/compiler/msvc.rs:356-362 | a line that ends in `-FI` is accepted, and the first attempt does not mean it |
| MsvcParser.SeeTracks | src/compiler/msvc.rs:118-176 | the loop's variables hold what the arguments so far amount to |
| MsvcParser.ParseArguments | src/compiler/msvc.rs:103-208 | the one-pass loop is the parse |
| MsvcDepfile.ScanLines | src/compiler/msvc.rs:285-298 | each writable included name is listed once, every other line is kept |
| MsvcDepfile.IncludeLine | src/compiler/msvc.rs:286-287 | a line with the prefix names the file that is left without the white space around it |
| MsvcDepfile.NameByName | src/compiler/msvc.rs:289-308 | each name is written with a space after it, each rule and each kept line with its newline, in order |
| MsvcDepfile.SortedUnique | src/compiler/msvc.rs:303-304 | a set of names has only one sorted listing, so the rules do not depend on the order of the hash set |
| MsvcDepfile.WriteRules | src/compiler/msvc.rs:303-309 | one empty rule for each writable name, sorted |
| MsvcDepfile.WriteDepfile | src/compiler/msvc.rs:280-310 | the whole file: both lists name the same files, once each |
| ServerStatistics.StepBalances | src/server.rs:333-618 | each callback keeps the three balances, up to a disconnect or a failed reply |
| ServerStatistics.RunBalances | src/server.rs:333-618 | so does every run without a zeroing, from any sound state |
| ServerStatistics.StatisticsConserved | src/server.rs:342-618 | over any interleaving and any number of zeroings the counters since the last one, with what was in flight then, balance what is classified, concluded, written, pending or abandoned; forced and non-cacheable misses never exceed misses |
| ServerStatistics.CountersCount | src/server.rs:342-618 | in every run each of the thirteen counters is the number of events of its own kind since the last zeroing |
| ServerStatistics.SccacheService.CallCompile | src/server.rs:342-345 | one request is counted and waits |
| ServerStatistics.SccacheService.CheckCompilerOf | src/server.rs:482-518 | one classification counter moves; a compilation becomes a task |
| ServerStatistics.SccacheService.TaskDone | src/server.rs:540-590 | the counters of each outcome; a miss with something to write leaves a write pending |
| ServerStatistics.SccacheService.WriteDone | src/server.rs:594-611 | one write or write error is counted |
| ServerStatistics.SccacheService.ClientGone | src/server.rs:613 | a waiting request or a pending write is abandoned, and nothing counted |
| ServerStatistics.SccacheService.Zero | src/server.rs:421-424 | the counters are zeroed, what is in flight stays |
| IdleShutdown.ShutdownJustified | src/server.rs:880-899 | in every run a poll ends exactly by a queued shutdown, by a closed channel, or when no request was consumed for the whole timeout |
| IdleShutdown.RequestKeepsAlive | src/server.rs:884-898 | a queued request always prevents an idle shutdown |
| IdleShutdown.DrainConsumes | src/server.rs:885-896 | a poll without a shutdown consumes the whole queue |
| IdleShutdown.ShutdownOrInactive.Poll | src/server.rs:884-898 | the loop is that drain |
| ActiveHandles.NoLostWakeup | src/server.rs:916-959 | in every run the counter is the number of live handles, a stored waiter implies some are left, and the last waiter is woken exactly once, by the last drop |
| ActiveHandles.ZeroIsPermanent | src/server.rs:916-959 | once the counter is zero nothing changes any more |
| ActiveHandles.SharedInfo.CloneHandle | src/server.rs:927-932 | one more handle |
| ActiveHandles.SharedInfo.DropHandle | src/server.rs:934-944 | one handle less; the last one takes and wakes the waiter |
| ActiveHandles.SharedInfo.PollZero | src/server.rs:946-959 | ready exactly at zero, otherwise the task is registered |

## Left out

- CacheTransparent: takes paths as text, so two spellings of one file count as two files. A file that has been emptied is then filled in one step, and read in one step, so a part of a content is not seen where the whole or nothing is.
- DiskTransparent: an archive is written in one step once it has been emptied; a reader of an archive that was written to gets an output object right or not at all, because of its checksum, and a stream as anything; a put that dies leaves an empty file.
- KeyDetermines: is a hypothesis and not derived, because the hashed text is an undelimited concatenation; the SHA-1 and zip algorithms are functions.
- Produces: is a hypothesis, that a successful compiler run leaves every output file and one content in each.
- Compile: a run of the compiler is a function of request and preprocessed source; processes, temporary files and the choice between the first attempt and the fallback are not modelled, nor what a step that fails has already written.
- AddFile: sizes are unbounded, so `size() + size` does not overflow 64 bits as it could in the source.
- GetAllFiles: errors of the directory walk are skipped in the source and do not occur here; of the other file operations only a missing file fails.
- InsertFileRestart: covers the rename in `insert_file`, not its fallback to a copy across file systems.
- GetEntry: keys have at least two characters; the source panics on shorter ones, which a hexadecimal digest never is.
- RequestRoundTrip: messages are values and `cached_size` is returned with the new message, so aliasing of a message under update is not captured; unknown fields are skipped and not kept, text is bytes with a UTF-8 check, and a nested message without its required fields is refused wherever it is nested.
- DecodingIgnoresChunking: covers streams that `encode` writes; on others, where `decode` drains the re-encoded length, the model has the same step but no theorem.
- Expand: needs an acyclic relation between response files, because the iterator does not end on a file that includes itself; files are read by name, and do not change during a parse.
- WriteDepfile: `normpath` and the code page conversion are foreign calls, so lines are already text and the normalisation is any function.
- ParseArguments: paths have forward slashes, as on Unix.
- StatisticsConserved: durations, compiler detection and the table of known compilers are left out; a check of the compiler has any of its four outcomes.
- ShutdownJustified: a full channel drops notifications in the source; here a dropped one is a request that is never sent. Nothing is sent on a closed channel.
- NoLostWakeup: a woken task is recorded; that the executor then polls it is not part of this model.
- S3 storage, HTTP and credentials, sockets, daemonizing, `src/cmdline.rs`, logging, statistics printing, `parse_size` and release scripts are not part of this model.
