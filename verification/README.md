# LumenFlow core behaviour, modelled and proved in Dafny

A Dafny 4.11 project that models the parts of LumenFlow with the most state and the most cases, and
proves what they keep over every input, every run, or every reachable state. `dafny verify
dfyconfig.toml` checks all of it. Every module is named after the component it models.

**Pack registry.** `PackRegistry` holds the registry index and what one upsert does to it.
`PublishProtocol` is a transition system for any number of publish calls racing on one stored index:
lookup, upload, then up to three rounds of load, check `indexVersion`, put. The check and the put are two
requests, so another call's put can fall between them; a step for which that did not happen is called
isolated, and nothing in the steps enforces it. The theorem is that the stored index equals the committed
upserts in commit order at every moment of a run if and only if every put was isolated. `PublishScreening`
and `PublishFiles` say what the handler's single screening and its early upload are worth in such runs: when
version strings stay unique, packs their owners', and files as registered. `RegistryStores`
has the blob store and the in-memory store as classes, with other writers' updates arriving between any
two reads of the blob, and shows that one client cannot tell the stores apart. `PublishHandler` is the
publish handler around them, and what every sequence of publishes handled one at a time keeps.
`RateLimiter` is the sliding-window limiter, stated against the whole request history. `TarArchive` is the
byte-level tar reader, and the writer it inverts.

**Agent heartbeat.** `Heartbeat` cuts the manager's async methods at their awaits and proves single
flight, conservation of coalesced signals, when a drain gives up and how long it sleeps, in every reachable
state.

**Event stream.** `EventStream` reassembles newline-delimited JSON from arbitrary chunks.

**Configuration.** `ConfigTree` reads and writes dotted paths in JSON trees; `ConfigCommands` is
config:set and config:get over a whole workspace, with the validators as arbitrary functions.

**Dashboard.** `WorkspaceReplay` rebuilds the workspace overview from the event log; `Reconnect` is the
live-event connection with its timers and cleanup.

**Algorithms.** `TitleClusters` is greedy clustering by title similarity, `FileEdit` counts and replaces
exact strings, `RecentWorkspaces` is the bounded most-recently-used list. `Text` has the JavaScript string
operations the others share, `Arithmetic` the few numeric ones, and `Selections` says what it means to pick
elements of a sequence in order.

Where the source updates fields or loops, the model is a class or a method with a loop, proved against a
function; the lemmas are about that function. What such a function means is stated without it too: field by
field, in the source's own constants, or as the only value that reads in a given way.

## What the proofs turned up

- A put that is not isolated discards every put since its check and leaves the version number as far behind
  the number of commits as there were puts since its check; it stays where it was after one missed put and
  falls after more. Two calls can both report success and one version be gone (`LostUpdateIsReachable`).
  The check narrows the race, it does not close it.
- Version strings are screened once, before the retry loop. Two calls that both look a version up before
  either puts can both publish it even when every put is isolated. The registry stays free of repeats
  exactly if no two publishes of one version overlap in that way (`UniqueIffNoOverlap`). In the same way a
  version can land on a pack that another publisher has just created (`OwnersPublishIffNoTrespass`).
- A publish uploads before it registers, so a call that then conflicts, or loses the race for a version,
  may already have overwritten the registered file (`OverwriteIsReachable`, `IntactIffNoneOverwritten`).
- A put that takes effect but is not acknowledged makes the caller see an error, so "failure" does not
  always mean "nothing committed" (`LandedPutCanThrow`). It does unless the run holds such a put of the call
  (`PublishIsAllOrNothing`, `FailedHasPutIff`).
- The limiter's window is open at its start: two bursts of ten exactly 60 000 ms apart are both granted.
- An input can be left queued by a drain that failed, or by a call that comes between a drain's settling and
  its `finally`. It is then sent after the next call's own, newer input; `FinishLeavesQueueIff` and
  `OlderInputBeginsIff` say exactly when.
- A call coalesced between a drain's settling and its `finally` is answered with that drain's reply although
  its input has not been sent (`AnsweredIsSentIff`).
- A drain that gives up does not sleep, but its last failure counts: the next drain's first delay is four
  times the one before it, up to the cap (`BackoffDoubles`).
- The reconnect counter outlives its effect: once ten attempts are used up, the connection for the next task
  shows the error state at its first failure, without a retry (`RetriesAreInherited`).
- `config:set` on `memory_namespace.`, with the trailing dot, is accepted and turns the scalar into an object.
- config:set copies the tree through JSON text, so an infinity or NaN elsewhere in the copied part comes
  back as null; `SetLeavesTheRest` says exactly when another key keeps its value.
- Text that reads as a boolean or a number replaces an array instead of being appended to it.
- Replacing one match expands `$$`, `$&`, `` $` `` and `$'` in the new string; replacing all does not. A
  match counted once can still occur at a second, overlapping place.
- Stripping a leading `./` before testing for the manifest path makes no difference to the test.

## Model

| member | source | states |
|---|---|---|
| `PackRegistry.FindMeans` | apps/web/src/server/pack-registry-store-vercel-blob.ts:131-134 | a lookup finds the first entry of that id in the index, and none only if there is none |
| `PackRegistry.FindAfterApply` | apps/web/src/server/pack-registry-store-vercel-blob.ts:136-172 | an upsert changes the lookup of its own pack, to the entry it returns, and of no other |
| `PackRegistry.ApplyKeepsOrder` | apps/web/src/server/pack-registry-store-vercel-blob.ts:145-171 | an upsert keeps every pack in its place and every other pack as it was; a new pack comes last |
| `PackRegistry.ApplyKeepsIdsDistinct` | apps/web/src/server/pack-registry-store-vercel-blob.ts:143-172 | pack ids stay distinct |
| `PackRegistry.ApplyAddsOneVersion` | apps/web/src/server/pack-registry-store-vercel-blob.ts:147-166 | one upsert adds exactly one version to the registry |
| `PackRegistry.ReplayCounts` | apps/web/src/server/pack-registry-store-vercel-blob.ts:136-176 | a log of n upserts adds exactly n versions and keeps ids distinct |
| `PackRegistry.ReplayOnlyExtends` | apps/web/src/server/pack-registry-store-vercel-blob.ts:147-166 | from any point of a log on, no pack disappears, changes owner or birth, or loses or reorders a version |
| `PackRegistry.ReplayKeepsEveryVersion` | apps/web/src/server/pack-registry-store-vercel-blob.ts:147-166 | every upsert of a log is listed under its pack at the end |
| `PackRegistry.LastUpsertShows` | apps/web/src/server/pack-registry-store-vercel-blob.ts:149-167 | after any log a pack has the description, latest version and time of the last upsert to it |
| `PackRegistry.FirstUpsertCreates` | apps/web/src/server/pack-registry-store-vercel-blob.ts:157-167 | a pack that a log creates has the id, owner and birth of the first upsert to it |
| `PackRegistry.StartStays` | apps/web/src/server/pack-registry-store-vercel-blob.ts:149-156 | a pack there from the start keeps its id, owner and birth |
| `PackRegistry.VersionsAddUp` | apps/web/src/server/pack-registry-store-vercel-blob.ts:149-167 | a pack lists the versions it started with, then those of its upserts in log order |
| `PackRegistry.ScreenMeans` | apps/web/src/server/pack-registry-handlers.ts:415-434 | a publish is refused iff its pack has another owner, or else already lists its version, and with that reason |
| `PackRegistry.ApplyRepeats` | apps/web/src/server/pack-registry-store-vercel-blob.ts:147-166 | an upsert leaves the registry free of repeated version strings iff it was free and did not list this one |
| `PublishProtocol.ConflictHasForeignPut` | apps/web/src/server/pack-registry-store-vercel-blob.ts:92-98 | in every reachable state a check fails only after a put since the load, and the last put is another call's |
| `PublishProtocol.RunsAreAccounted` | apps/web/src/server/pack-registry-handlers.ts:450-475 | in every run, isolated or not, attempts equal conflicts, conflicts are charged to distinct puts of others, and puts match outcomes |
| `PublishProtocol.PublishIsAllOrNothing` | apps/web/src/server/pack-registry-handlers.ts:436-475 | in every run a call is reported published iff its put was acknowledged, and then its upsert is in the log; any other call has committed iff the run holds its unacknowledged put; nobody commits twice; an exhausted call was beaten by three distinct puts of others since it began |
| `PublishProtocol.LookUpMeans` | apps/web/src/server/pack-registry-handlers.ts:411-434 | a lookup refuses a pack of another owner, then a version already listed, and lets every other call through to its upload |
| `PublishProtocol.PutsAreUploaded` | apps/web/src/server/pack-registry-handlers.ts:436-460 | in every run a put comes after an acknowledged upload of its call, and adds the request with the clock reading of the last load to the log |
| `PublishProtocol.ErrorsEnd` | apps/web/src/server/pack-registry-handlers.ts:476-480 | in every run an upload or another request that throws ends its call in an error for good |
| `PublishProtocol.StepKeepsSerialIffIsolated` | apps/web/src/server/pack-registry-store-vercel-blob.ts:92-112 | from a serial state, one step stays serial iff it is isolated |
| `PublishProtocol.SerializableIffIsolated` | apps/web/src/server/pack-registry-store-vercel-blob.ts:92-176 | the index equals the commits in commit order, and its version counts them, throughout a run iff every put in it is isolated |
| `PublishProtocol.IsolatedRunsLoseNothing` | apps/web/src/server/pack-registry-store-vercel-blob.ts:92-176 | in isolated runs every committed version is listed at every later moment and packs only grow |
| `PublishProtocol.OverlappingPutLosesVersions` | apps/web/src/server/pack-registry-store-vercel-blob.ts:92-112 | the first put that is not isolated leaves exactly as many versions missing, and the version number as far behind the commits, as there were puts since its check |
| `PublishProtocol.LostUpdateIsReachable` | apps/web/src/server/pack-registry-store-vercel-blob.ts:92-112 | for any two requests for one pack some run ends with both reported published and the first one's version gone |
| `PublishProtocol.LandedPutCanThrow` | apps/web/src/server/pack-registry-handlers.ts:476-480 | for any request a call can end in an error with its version listed, its put taking effect at once or after it was abandoned |
| `PublishScreening.RunsAreCleared` | apps/web/src/server/pack-registry-handlers.ts:411-434 | in isolated runs every call that may still put was let through by the index as of its own lookup |
| `PublishScreening.TakenIffOverlapped` | apps/web/src/server/pack-registry-handlers.ts:425-460 | a put finds its version string already listed iff another call put the same version of the same pack since this call looked it up |
| `PublishScreening.UniqueIffNoOverlap` | apps/web/src/server/pack-registry-handlers.ts:425-475 | an isolated run keeps version strings unique iff no call was overtaken, between its lookup and its put, by another call's put of the same version |
| `PublishScreening.RepeatIsReachable` | apps/web/src/server/pack-registry-handlers.ts:425-452 | an isolated run can end with one version string listed twice and both calls reported published |
| `PublishScreening.ForeignIffTrespass` | apps/web/src/server/pack-registry-handlers.ts:416-460 | a put lands on someone else's pack iff they created it between this call's lookup and its put |
| `PublishScreening.OwnersPublishIffNoTrespass` | apps/web/src/server/pack-registry-handlers.ts:416-475 | an isolated run keeps every listed version by its pack's owner iff no put does that |
| `PublishScreening.TrespassIsReachable` | apps/web/src/server/pack-registry-handlers.ts:416-452 | two publishers who both look up a fresh pack id can both publish to it |
| `PublishFiles.RunsKeepFiles` | apps/web/src/server/pack-registry-store-vercel-blob.ts:184-193 | in every run a file holds what was last uploaded to its path, or what was there at the start |
| `PublishFiles.RegisteredFileIsIntact` | apps/web/src/server/pack-registry-handlers.ts:436-460 | in every run a registered version's file has the registered bytes iff no later upload that stayed brought others |
| `PublishFiles.OnlyEarlierLookupsOverwrite` | apps/web/src/server/pack-registry-handlers.ts:425-437 | in isolated runs only a call that looked a version up before it was registered uploads to its path, and nobody to that of a version listed from the start |
| `PublishFiles.IntactIffNoneOverwritten` | apps/web/src/server/pack-registry-handlers.ts:425-460 | an isolated run from a sound start keeps every listed version's file as registered iff no registered version was overwritten |
| `PublishFiles.OverwriteIsReachable` | apps/web/src/server/pack-registry-handlers.ts:436-452 | a published version's file can hold another call's bytes although every put is isolated |
| `RegistryStores.BlobRegistryStore.LoadIndex` | apps/web/src/server/pack-registry-store-vercel-blob.ts:68-86 | an absent blob is the empty index at version 0 and a missing version or list counts as 0 or empty, whatever has arrived since the last read |
| `RegistryStores.BlobRegistryStore.SaveIndex` | apps/web/src/server/pack-registry-store-vercel-blob.ts:92-112 | writes version expected + 1 iff the re-read succeeds, finds the expected version, and the put takes effect; an acknowledged write is Ok, one that throws after taking effect is an error with the index written |
| `RegistryStores.SearchSelects` | apps/web/src/server/pack-registry-store-vercel-blob.ts:118-128 | a search returns every pack whose id or description contains the query, or every pack without one, and no other, in order and as often as listed |
| `RegistryStores.BlobRegistryStore.ListPacks` | apps/web/src/server/pack-registry-store-vercel-blob.ts:114-129 | that selection of the index read |
| `RegistryStores.BlobRegistryStore.GetPackById` | apps/web/src/server/pack-registry-store-vercel-blob.ts:131-134 | the entry found in the index read |
| `RegistryStores.BlobRegistryStore.UpsertPackVersion` | apps/web/src/server/pack-registry-store-vercel-blob.ts:136-176 | with other writers between its two reads and any of its three requests throwing: commits the upsert of the index read first iff the put takes effect on an unchanged version, and otherwise writes nothing; the entry returned has this call's description, version and time, the old entry's id, owner and birth, and its versions with the new one after them |
| `RegistryStores.MemoryRegistryStore.constructor` | apps/web/src/server/pack-registry-store-memory.ts:17-19 | packs of distinct ids are all kept, in the order given |
| `RegistryStores.MemoryRegistryStore.ListPacks` | apps/web/src/server/pack-registry-store-memory.ts:21-35 | of the values in insertion order, exactly those whose id or description contains the query, or all without one, in that order (`SearchSelects`) |
| `RegistryStores.MemoryRegistryStore.GetPackById` | apps/web/src/server/pack-registry-store-memory.ts:37-39 | the value of the key, if set |
| `RegistryStores.MemoryRegistryStore.UpsertPackVersion` | apps/web/src/server/pack-registry-store-memory.ts:41-73 | the map's values become the list upsert of the old values, order included, and the entry returned is as the blob store's |
| `RegistryStores.GetIsFind` | apps/web/src/server/pack-registry-store-memory.ts:37-39 | lookup by key agrees with searching the values |
| `RegistryStores.SetIsApply` | apps/web/src/server/pack-registry-store-memory.ts:47-73 | setting the key is the blob store's list upsert |
| `RegistryStores.StoresAgree` | apps/web/src/server/pack-registry-store-vercel-blob.ts:114-176 | from equal packs, every sequence of upserts, lookups and searches gets equal replies from both stores |
| `RegistryStores.ServeBoth` | apps/web/src/server/pack-registry-store-memory.ts:21-73 | run on the two classes from empty, every sequence of operations gets the same replies from both |
| `RateLimiter.Limiter.CheckRateLimit` | apps/web/src/server/pack-registry-handlers.ts:309-328 | grants iff fewer than ten timestamps of the last 60 000 ms remain, stores those and the granted one, and leaves other publishers alone |
| `RateLimiter.Prune` | apps/web/src/server/pack-registry-handlers.ts:319-320 | keeps exactly the timestamps after the window start, in order |
| `RateLimiter.KeptIsHistoryInWindow` | apps/web/src/server/pack-registry-handlers.ts:309-328 | under a clock that never goes back, the pruned list is the publisher's whole granted history cut to the window |
| `RateLimiter.AtMostTenPerWindow` | apps/web/src/server/pack-registry-handlers.ts:309-328 | no half-open window of 60 000 ms, wherever it ends, ever holds more than ten grants to one publisher |
| `RateLimiter.RejectedIffWindowFull` | apps/web/src/server/pack-registry-handlers.ts:322-324 | a request is turned away iff exactly ten grants lie in the window ending with it |
| `RateLimiter.OthersDoNotMatter` | apps/web/src/server/pack-registry-handlers.ts:309-328 | dropping every other publisher's requests changes no decision for this one |
| `RateLimiter.QuietWindowGrantsTen` | apps/web/src/server/pack-registry-handlers.ts:309-328 | after a window without grants, each of up to ten requests at once is granted |
| `RateLimiter.ClosedWindowHolds` | apps/web/src/server/pack-registry-handlers.ts:309-328 | a window closed at both ends holds the half-open window's grants and those at its first instant: at most twenty, and over ten iff the latter exceed the room left |
| `RateLimiter.ClosedWindowCanHoldTwenty` | apps/web/src/server/pack-registry-handlers.ts:311-320 | twenty is reached |
| `TarArchive.ManifestPathMeans` | apps/web/src/server/pack-registry-handlers.ts:157-167 | a manifest path is the bare name or ends in slash and name, with or without the leading ./ |
| `TarArchive.NameDecides` | apps/web/src/server/pack-registry-handlers.ts:157-167 | an entry is the manifest iff its name is `manifest.yaml` or ends in it after a slash or a backslash, whatever the prefix |
| `TarArchive.CutMeans` | apps/web/src/server/pack-registry-handlers.ts:138-143 | a field is read up to its first NUL |
| `TarArchive.TrimMeans` | apps/web/src/server/pack-registry-handlers.ts:138-143 | trimming a field takes ASCII blanks off both ends and nothing else |
| `TarArchive.SizeStopsAtJunk` | apps/web/src/server/pack-registry-handlers.ts:145-155 | a size is read up to what is no octal digit, with or without a plus sign; a negative one counts as 0 |
| `TarArchive.NoDigits` | apps/web/src/server/pack-registry-handlers.ts:145-155 | a size without a digit in front counts as 0 |
| `TarArchive.CutShortStops` | apps/web/src/server/pack-registry-handlers.ts:183-190 | an entry whose content is cut short ends the search, manifest or not |
| `TarArchive.PaddingFills` | apps/web/src/server/pack-registry-handlers.ts:197-198 | skipping an entry keeps the cursor on a block boundary and pads by less than a block |
| `TarArchive.Scan` | apps/web/src/server/pack-registry-handlers.ts:169-202 | on any bytes the loop ends and returns what reading entry by entry means, always a slice inside the archive on a block boundary |
| `TarArchive.ReadManifestFromTarball` | apps/web/src/server/pack-registry-handlers.ts:116-132 | a payload that starts with the bytes 31 and 139 is read decompressed, or as it is when decompression throws; any other payload is read as it is |
| `TarArchive.OctalRoundTrip` | apps/web/src/server/pack-registry-handlers.ts:145-155 | reading octal digits gives back the number written in them |
| `TarArchive.HeaderReadsBack` | apps/web/src/server/pack-registry-handlers.ts:138-186 | name, prefix, type and size all come back from a header laid out by the ustar format, whatever the unread fields hold |
| `TarArchive.ReadingShifts` | apps/web/src/server/pack-registry-handlers.ts:173-199 | reading past a prefix is reading the rest from its start |
| `TarArchive.ReaderInvertsWriter` | apps/web/src/server/pack-registry-handlers.ts:169-202 | for any list of entries the reader returns the bytes of the first regular manifest entry, else nothing, whatever trails the archive |
| `TarArchive.PublishedManifest` | apps/web/src/server/pack-registry-handlers.ts:116-202 | a published archive yields its first manifest, gzipped or not, and also when it merely looks gzipped and fails to decompress |
| `PublishHandler.BlobStore.Upload` | apps/web/src/server/pack-registry-store-vercel-blob.ts:184-206 | overwrites the file of this pack and version and no other with the bytes of the view, unless it throws first; the integrity is the prefixed hash of the view's whole buffer |
| `PublishHandler.Attempt` | apps/web/src/server/pack-registry-handlers.ts:453-467 | an attempt conflicts iff both reads succeed and differ, registers iff they agree and the put takes effect, succeeds iff that is also acknowledged |
| `PublishHandler.UpsertWithRetries` | apps/web/src/server/pack-registry-handlers.ts:450-475 | against any arriving writes and any requests that throw: at most one put, by the first of three attempts that meets no conflict |
| `PublishHandler.HandlePublishVersion` | apps/web/src/server/pack-registry-handlers.ts:393-481 | the answer, the limiter, the stored index and the files for each way the call can end, against any arriving writes and with any request throwing, before or after it took effect |
| `PublishHandler.FailedHasPutIff` | apps/web/src/server/pack-registry-handlers.ts:436-480 | a failed call has put iff it was admitted, its upload was acknowledged, and its last attempt's put took effect before it threw |
| `PublishHandler.PublishAlone` | apps/web/src/server/pack-registry-handlers.ts:393-481 | with nobody else writing, the handler is the function the history theorems are about |
| `PublishHandler.KeysAreDistinct` | apps/web/src/server/pack-registry-store-vercel-blob.ts:189 | slash-free pack ids with any versions never share a file |
| `PublishHandler.PublishKeepsGood` | apps/web/src/server/pack-registry-handlers.ts:411-460 | one publish keeps everything the next row lists |
| `PublishHandler.HistoryIsGood` | apps/web/src/server/pack-registry-handlers.ts:411-460 | after any sequence of publishes, whatever throws in them: distinct ids, every version by the owner, none repeated, the last one latest, each with the hash and manifest of the bytes stored for it |
| `PublishHandler.PublishAnswers` | apps/web/src/server/pack-registry-handlers.ts:393-481 | the answers in their order: the two limits, a lookup that throws, the two refusals, success with the version as the request describes it, else failure |
| `PublishHandler.PublishPuts` | apps/web/src/server/pack-registry-handlers.ts:436-475 | a publish changes the index iff it passes, its upload is acknowledged and its put takes effect, and the files iff it passes and the upload takes effect |
| `PublishHandler.HistoryIsItsLog` | apps/web/src/server/pack-registry-handlers.ts:436-460 | the registry after any history is what the upserts of its publishes make of the empty one, and its version counts them |
| `PublishHandler.PublishedShows` | apps/web/src/server/pack-registry-handlers.ts:441-460 | a publish answered with success is listed from then on with its version, publisher, time, hash, URL and manifest, and right after it the pack shows its description and time |
| `PublishHandler.HistoryOnlyGrows` | apps/web/src/server/pack-registry-handlers.ts:411-460 | over any sequence of publishes packs never vanish or change owner and version lists only grow at the end |
| `Heartbeat.HeartbeatManager.Heartbeat` | packages/@lumenflow/agent/src/agent-heartbeat.ts:80-88 | a call while one is in flight replaces the queued input and counts one signal; otherwise it starts a drain that calls the port |
| `Heartbeat.HeartbeatManager.OnPortReply` | packages/@lumenflow/agent/src/agent-heartbeat.ts:138-141 | a reply clears the failure count and hands the reply to the drain |
| `Heartbeat.HeartbeatManager.GetBackoffDelayMs` | packages/@lumenflow/agent/src/agent-heartbeat.ts:159-162 | the delay for the current failure count (`BackoffDoubles`) |
| `Heartbeat.HeartbeatManager.OnPortError` | packages/@lumenflow/agent/src/agent-heartbeat.ts:142-155 | a failure counts, then gives up at the attempt limit (`GivesUpIff`) or sleeps for the delay (`BackoffDoubles`) |
| `Heartbeat.HeartbeatManager.OnSleepOver` | packages/@lumenflow/agent/src/agent-heartbeat.ts:154-156 | back to the port with the same input and attempt, or out with the sleep's error |
| `Heartbeat.HeartbeatManager.ResumeDrain` | packages/@lumenflow/agent/src/agent-heartbeat.ts:112-131 | takes the queue and sends on, or settles with the signals merged; a throw leaves the queue alone |
| `Heartbeat.HeartbeatManager.FinishCall` | packages/@lumenflow/agent/src/agent-heartbeat.ts:89-93 | the finally clears inFlight and nothing else |
| `Heartbeat.SignalsAreConserved` | packages/@lumenflow/agent/src/agent-heartbeat.ts:80-132 | in every reachable state: coalesced = queued + held by the running drain + delivered + dropped; the queue holds the latest input coalesced since it was last taken, iff its count is positive |
| `Heartbeat.OnlyOneInFlight` | packages/@lumenflow/agent/src/agent-heartbeat.ts:80-94 | in every reachable state at most one drain and one port call; no finally clears another drain's inFlight |
| `Heartbeat.RetriesAreBounded` | packages/@lumenflow/agent/src/agent-heartbeat.ts:134-157 | consecutiveFailures is the trailing run of failures over the whole history; an input costs at most max(1, maxAttempts) calls and sleeps at most one cap per retry |
| `Heartbeat.DelaysNeverFall` | packages/@lumenflow/agent/src/agent-heartbeat.ts:150-162 | within a failing run, across drains, delays never decrease or exceed the cap |
| `Heartbeat.BackoffDoubles` | packages/@lumenflow/agent/src/agent-heartbeat.ts:142-162 | in every run, whichever drain sleeps: the first delay of a failing run is the smaller of base and cap; each further failure doubles it up to the cap, and so does the one failure in between that a drain gave up on without a sleep |
| `Heartbeat.GivesUpIff` | packages/@lumenflow/agent/src/agent-heartbeat.ts:142-155 | in every run a failed port call ends its drain iff it was the last of max(1, maxAttempts) for its input, and else is slept on |
| `Heartbeat.SendsWhatItBegan` | packages/@lumenflow/agent/src/agent-heartbeat.ts:134-139 | in every run each port call, first or repeated, sends the input begun last |
| `Heartbeat.CallsAndThrownSleeps` | packages/@lumenflow/agent/src/agent-heartbeat.ts:87-88 | a call with nothing in flight sends its own input; a sleep that throws sends nothing |
| `Heartbeat.AnswerIsLastReply` | packages/@lumenflow/agent/src/agent-heartbeat.ts:112-131 | in every run a drain that delivers answers with the port's last reply and its signals added to the count; one that throws sends nothing more and leaves the queue alone |
| `Heartbeat.HeartbeatManager.constructor` | packages/@lumenflow/agent/src/agent-heartbeat.ts:69-78 | missing options are 3 attempts, 500 ms and 30 000 ms; nothing is in flight, queued or counted |
| `Heartbeat.MergeReportsSignals` | packages/@lumenflow/agent/src/agent-heartbeat.ts:119-127 | the reply's count is its own plus the merged signals, iff there were none or the sum is positive |
| `Heartbeat.FinishLeavesQueueIff` | packages/@lumenflow/agent/src/agent-heartbeat.ts:80-117 | in every run, a finishing call leaves an input queued iff one was coalesced after its drain settled, or before it threw and after the queue was last taken |
| `Heartbeat.OlderInputBeginsIff` | packages/@lumenflow/agent/src/agent-heartbeat.ts:80-131 | in every run, a call that starts a drain has an input older than its own sent after it iff signals were queued when it came, its first sendWithRetry returns, and no call comes before the drain resumes |
| `Heartbeat.FailedDrainLeavesQueue` | packages/@lumenflow/agent/src/agent-heartbeat.ts:89-117 | for every attempt limit, a drain that uses up its attempts can leave an input queued |
| `Heartbeat.GapLeavesQueue` | packages/@lumenflow/agent/src/agent-heartbeat.ts:89-93 | and so can a drain that succeeds, through a call before the finally |
| `Heartbeat.LeftoverInputGoesOutLate` | packages/@lumenflow/agent/src/agent-heartbeat.ts:108-131 | from either of those states a newer call's input goes out first and the left one after it |
| `Heartbeat.AnsweredIsSentIff` | packages/@lumenflow/agent/src/agent-heartbeat.ts:81-94 | in every run, a caller that joins a drain which delivers has had its input, or a later one that joined too, sent by it iff it joined before the delivery; one that joins after gets the reply although nothing more is sent |
| `EventStream.ChunkCompletesLines` | examples/copilotkit-demo/src/lib/ag-ui-adapter.ts:84-112 | a further chunk completes the lines of the buffer and the chunk, and leaves the last part open |
| `EventStream.HandleLine` | examples/copilotkit-demo/src/lib/ag-ui-adapter.ts:94-111 | a line of spaces or one that does not parse does nothing; any other is delivered, and its delta added behind the text if it has one and the callback does not throw |
| `EventStream.ReadStream` | examples/copilotkit-demo/src/lib/ag-ui-adapter.ts:81-131 | however the text is cut into chunks: the events are the parsed lines of the whole text, and the text returned is the deltas, in order of delivery, of exactly the events that have one and whose callback did not throw |
| `EventStream.EveryParsedLineIsDelivered` | examples/copilotkit-demo/src/lib/ag-ui-adapter.ts:94-111 | every line that parses is delivered once and in order, even if an earlier callback threw |
| `EventStream.StreamDeliversParsedLines` | examples/copilotkit-demo/src/lib/ag-ui-adapter.ts:79-131 | the same of splitting the whole text at once |
| `EventStream.ParsedSelects` | examples/copilotkit-demo/src/lib/ag-ui-adapter.ts:94-99 | the parsed lines are the values of exactly the lines that are not all spaces and parse once trimmed, each once and in order |
| `Text.TrimMeans` | examples/copilotkit-demo/src/lib/ag-ui-adapter.ts:95 | trimming takes spaces off both ends and nothing else |
| `Text.SplitResumes` | examples/copilotkit-demo/src/lib/ag-ui-adapter.ts:87-91 | splitting can stop anywhere and resume with the last part |
| `Text.SplitJoin` | packages/@lumenflow/cli/src/config-set.ts:267-269 | splitting undoes joining when no part holds the separator |
| `Text.JoinSplit` | packages/@lumenflow/cli/src/config-set.ts:267-269 | joining undoes splitting |
| `ConfigTree.GetConfigValue` | packages/@lumenflow/cli/src/config-set.ts:330-342 | the loop reads the path one own property at a time, and nothing past a value that is no object |
| `ConfigTree.SetNestedValue` | packages/@lumenflow/cli/src/config-set.ts:353-378 | moving a cursor through the clone and making objects on the way is one recursive write |
| `ConfigTree.MakingRoomIsHarmless` | packages/@lumenflow/cli/src/config-set.ts:362-372 | putting an empty object where the path has none changes nothing the final write does not |
| `ConfigTree.ReadAfterWrite` | packages/@lumenflow/cli/src/config-set.ts:330-378 | reading a written path gives the value written |
| `ConfigTree.ReadElsewhere` | packages/@lumenflow/cli/src/config-set.ts:330-378 | a write changes no path that neither contains nor extends its own |
| `ConfigTree.LastWriteWins` | packages/@lumenflow/cli/src/config-set.ts:353-378 | writing twice is writing the second value |
| `ConfigTree.CloneKeepsIffFinite` | packages/@lumenflow/cli/src/config-set.ts:358 | cloning through JSON text keeps a value iff every number in it is finite |
| `ConfigTree.ReadOfClone` | packages/@lumenflow/cli/src/config-set.ts:358 | reading a clone is cloning what is read |
| `ConfigTree.CloneMeans` | packages/@lumenflow/cli/src/config-set.ts:358 | a clone nulls the infinities and NaN, and keeps everything else, array lengths included, in its place |
| `ConfigTree.LeavesOne` | packages/@lumenflow/cli/src/config-set.ts:353-378 | what a write leaves is the one section that reads the value at the path and the clone everywhere apart from it |
| `ConfigTree.StrippedMeans` | packages/@lumenflow/cli/src/config-set.ts:432-471 | a path is stripped iff it can be read before the parse and not after it, below an object both times |
| `ConfigTree.FindStrippedKeys` | packages/@lumenflow/cli/src/config-set.ts:432-471 | exactly the paths whose parents are objects on both sides and whose last key the parsed side lacks |
| `ConfigTree.ValidateJsonSchemaPath` | packages/@lumenflow/cli/src/config-set.ts:621-641 | empty iff the schema knows the whole path, else exactly its shortest unknown prefix |
| `ConfigCommands.CoercionMeans` | packages/@lumenflow/cli/src/config-set.ts:397-417 | a boolean comes out iff the text is its spelling; else a number iff the text reads as one and looks numeric or replaces one; else an array iff one was there, with its items and then the comma-separated parts, trimmed, in order; else the text |
| `ConfigCommands.SubPathSplits` | packages/@lumenflow/cli/src/config-set.ts:267-269 | splitting the joined sub-path gives back the key's remaining segments |
| `ConfigCommands.ApplyPackConfigSetWithZod` | packages/@lumenflow/cli/src/config-set.ts:711-777 | accepts iff the parse succeeds and strips nothing in the sub-tree being written |
| `ConfigCommands.ApplyPackConfigSet` | packages/@lumenflow/cli/src/config-set.ts:648-705 | each rejection in the source's order, or the section with the one write |
| `ConfigCommands.ApplyWorkspaceRootSet` | packages/@lumenflow/cli/src/config-set.ts:535-593 | scalar keys take the raw text and no sub-path; control_plane takes a nested write that its schema accepts |
| `ConfigCommands.ApplyConfigSet` | packages/@lumenflow/cli/src/config-set.ts:489-519 | the outcome for each route, errors included |
| `ConfigCommands.ApplyConfigGet` | packages/@lumenflow/cli/src/config-get.ts:68-103 | the value at the full path for writable and pack keys, the same errors as set for the others |
| `ConfigCommands.ReadableIffWritableOrPack` | packages/@lumenflow/cli/src/config-set.ts:266-291 | get answers, with what is at the full path, iff the first segment is one of the three writable root keys or a pack's key, and set never succeeds elsewhere |
| `ConfigCommands.RoutingMeans` | packages/@lumenflow/cli/src/config-set.ts:266-291 | any other key is rejected by set and get alike, with the command that manages it or as unknown |
| `ConfigCommands.SetIsOneWrite` | packages/@lumenflow/cli/src/config-set.ts:489-809 | whichever way it is routed, a successful set is a single write at the key's full path |
| `ConfigCommands.SetThenGet` | packages/@lumenflow/cli/src/config-set.ts:489-809 | on keys whose walked path meets no array: after a successful set, get returns the raw text at scalar root keys, else the text coerced by what was there, which under control_plane went through the clone |
| `ConfigCommands.SetLeavesTheRest` | packages/@lumenflow/cli/src/config-set.ts:353-378 | on paths that meet no array: get on any key apart from the written one is as before, iff its value was not cloned along or holds only finite numbers |
| `ConfigCommands.ScalarStaysStringIff` | packages/@lumenflow/cli/src/config-set.ts:545-554 | a scalar root key is set iff at most an empty segment follows it, and stays a string iff nothing does |
| `ConfigCommands.InfinityBecomesNull` | packages/@lumenflow/cli/src/config-set.ts:545-554 | setting one namespace turns an infinite value of the other into null |
| `ConfigCommands.JsonSchemaDecides` | packages/@lumenflow/cli/src/config-set.ts:661-705 | a pack with a JSON schema takes a write, and stores the one section it would leave, iff the key names a nested field and the schema is declared, loaded and knows its path; else the reason, in this order |
| `ConfigCommands.ControlPlaneDecides` | packages/@lumenflow/cli/src/config-set.ts:557-593 | a set on control_plane succeeds, and stores the section it would leave, iff the key names a field inside and the schema accepts that section, described by reads |
| `ConfigCommands.StoredControlPlaneIsValid` | packages/@lumenflow/cli/src/config-set.ts:576-593 | after every success there the stored section is one that the schema accepts |
| `ConfigCommands.WouldLeaveOne` | packages/@lumenflow/cli/src/config-set.ts:353-378 | there is exactly one section that a set would leave |
| `ConfigCommands.SoftwareDeliveryDecides` | packages/@lumenflow/cli/src/config-set.ts:648-776 | a software-delivery set succeeds, and stores the section it would leave, iff the key names a field inside, the normalised section parses, and the parse drops nothing of the sub-tree being written |
| `ConfigCommands.NothingStrippedSilently` | packages/@lumenflow/cli/src/config-set.ts:733-776 | after a successful software-delivery write no path of the written, normalised sub-tree is one that the parse drops |
| `WorkspaceReplay.DeriveStatusFromEvents` | apps/web/src/lib/workspace-data.ts:59-70 | the state named by the last event whose kind names one, else ready |
| `WorkspaceReplay.StatusMeans` | apps/web/src/lib/dashboard-types.ts:164-173 | the last event that names a state decides: created and released are ready, claimed, unblocked and resumed active, blocked blocked, waiting waiting, completed done; without one the task is ready |
| `WorkspaceReplay.AccumulateEvents` | apps/web/src/lib/workspace-data.ts:82-102 | one accumulator per task in first-seen order, holding its own events with the lane and title of its last creation |
| `WorkspaceReplay.DeriveAllTaskSummaries` | apps/web/src/lib/workspace-data.ts:81-117 | each summary is computed from its task's own events alone |
| `WorkspaceReplay.SummaryMeans` | apps/web/src/lib/workspace-data.ts:49-75 | lane and title are those of the task's last creation, or `unknown` and the task id where they are missing, and the time is its last event's |
| `WorkspaceReplay.SummaryOfUncreated` | apps/web/src/lib/workspace-data.ts:94-101 | a task never created has the unknown lane and its id as the title |
| `WorkspaceReplay.OwnSelects` | apps/web/src/lib/workspace-data.ts:82-102 | a task's own events are exactly those of the log with its id, in log order |
| `WorkspaceReplay.ListedByFirst` | apps/web/src/lib/workspace-data.ts:81-190 | tasks are listed in the order of their first events, and lanes in that of their first tasks in progress |
| `WorkspaceReplay.ReorderingTasksIsHarmless` | apps/web/src/lib/workspace-data.ts:81-117 | reordering events of different tasks changes at most the order of the summaries |
| `WorkspaceReplay.GroupTasksByStatus` | apps/web/src/lib/workspace-data.ts:123-142 | five groups, ready, active, blocked, waiting, done, each with exactly its tasks in input order |
| `WorkspaceReplay.GroupsPartition` | apps/web/src/lib/workspace-data.ts:123-142 | every task is in exactly one group and the sizes add up |
| `WorkspaceReplay.GroupsSelect` | apps/web/src/lib/workspace-data.ts:123-142 | a group, and likewise a lane, is exactly its tasks in input order |
| `WorkspaceReplay.ComputeLaneWipCounts` | apps/web/src/lib/workspace-data.ts:149-190 | one entry per lane with work in progress, in first-seen order, counting its active, blocked and waiting tasks and their total |
| `WorkspaceReplay.LaneTotalsAddUp` | apps/web/src/lib/workspace-data.ts:149-190 | lanes are listed once and their totals add up to active + blocked + waiting |
| `WorkspaceReplay.CountStatuses` | apps/web/src/lib/workspace-data.ts:200-212 | each status counts exactly its tasks |
| `WorkspaceReplay.BuildWorkspaceOverview` | apps/web/src/lib/workspace-data.ts:195-221 | status counts are the group sizes and add up to the total count |
| `Reconnect.EventConnection.Connect` | apps/web/src/hooks/use-task-events.ts:435-443 | opens a source for the effect unless it has been cleaned up |
| `Reconnect.EventConnection.Mount` | apps/web/src/hooks/use-task-events.ts:428-473 | a new effect starts not cleaned up and connects at once |
| `Reconnect.EventConnection.OnOpen` | apps/web/src/hooks/use-task-events.ts:445-448 | clears the attempt counter and shows connected |
| `Reconnect.EventConnection.OnError` | apps/web/src/hooks/use-task-events.ts:452-470 | closes the source, then nothing, the error state, or one timer and one more attempt |
| `Reconnect.EventConnection.OnTimer` | apps/web/src/hooks/use-task-events.ts:469 | connects for the effect that set the timer |
| `Reconnect.EventConnection.CleanUp` | apps/web/src/hooks/use-task-events.ts:475-485 | clears the timer and closes the source the refs hold |
| `Reconnect.RunsAreSafe` | apps/web/src/hooks/use-task-events.ts:428-486 | over every sequence of events, mountings included, every live source and pending timer belongs to the mounted effect and is the one its ref holds, never one of each; the counter is min(10, failures since the last open) and the state shown follows from what was reported |
| `Reconnect.AtMostOneConnection` | apps/web/src/hooks/use-task-events.ts:428-486 | never more than one source or timer together, and after cleanup nothing but a new mounting can happen |
| `Reconnect.ErrorOnlyAtFullCounter` | apps/web/src/hooks/use-task-events.ts:460-464 | a failure leads to the error state iff the counter was at ten, and then nothing is left to fire |
| `Reconnect.RetriesAreInherited` | apps/web/src/hooks/use-task-events.ts:415-486 | in every run, until it first opens an effect gets ten retries less the counter it found, and its next failure shows the error state |
| `Reconnect.ExponentialDoubles` | apps/web/src/hooks/use-task-events.ts:63-64 | the exponential part starts at 1000 ms and doubles with each attempt up to 30 000 ms |
| `Reconnect.JitterMeans` | apps/web/src/hooks/use-task-events.ts:64-66 | the jitter adds half of it times the random number |
| `Reconnect.DelaysAreBounded` | apps/web/src/hooks/use-task-events.ts:63-67 | every delay lies from its exponential part to under half as much again, at least one second and below 45 000 ms |
| `Reconnect.PendingDelaysFit` | apps/web/src/hooks/use-task-events.ts:452-470 | in every run each pending timer has such a delay, for the number of failures since the last open |
| `TitleClusters.SimilarityMeans` | packages/@lumenflow/agent/src/feedback-review-core.ts:172-194 | similarity is symmetric, in [0, 1], and 1 for different titles iff their word sets are equal and not empty |
| `TitleClusters.SimilarityIsQuotient` | packages/@lumenflow/agent/src/feedback-review-core.ts:172-194 | similarity is 0 with an empty title, 1 of a title with itself, else the number of common words over the number of all words, or 0 if one title has no words |
| `TitleClusters.FindBestCluster` | packages/@lumenflow/agent/src/feedback-review-core.ts:259-269 | the earliest of the most similar clusters that reach the threshold, or none if none does |
| `TitleClusters.Join` | packages/@lumenflow/agent/src/feedback-review-core.ts:271-279 | the node is appended to that cluster, or starts one at the end |
| `TitleClusters.PlaceKeepsClustered` | packages/@lumenflow/agent/src/feedback-review-core.ts:258-282 | placing one node keeps the partition, the separation, and that a cluster has its first node's title and category |
| `TitleClusters.ClusterByTitle` | packages/@lumenflow/agent/src/feedback-review-core.ts:234-286 | the titled first nodes of each id, each in exactly one cluster and in input order, each placed at the earliest most similar cluster of its time |
| `TitleClusters.ThresholdSeparates` | packages/@lumenflow/agent/src/feedback-review-core.ts:263-279 | for a threshold in (0, 1] every member reaches it with its cluster's title and any two titles fall below it |
| `TitleClusters.RepresentativesAreDistinct` | packages/@lumenflow/agent/src/feedback-review-core.ts:245-254 | the clustered nodes have distinct ids and titles that are not empty |
| `TitleClusters.RepresentativesMean` | packages/@lumenflow/agent/src/feedback-review-core.ts:245-254 | they are exactly the nodes with a title, or without one but with content, whose id has not come before, in input order |
| `FileEdit.IndexIsFirst` | packages/@lumenflow/cli/src/file-edit.ts:129 | the index is the first match at or after the position, and the only such answer |
| `FileEdit.CountOccurrences` | packages/@lumenflow/cli/src/file-edit.ts:125-135 | the count is the number of separators a split finds |
| `FileEdit.CountIsMaximal` | packages/@lumenflow/cli/src/file-edit.ts:125-135 | the count is the largest number of matches of which no two overlap |
| `FileEdit.OneMeansUniqueIffUnbordered` | packages/@lumenflow/cli/src/file-edit.ts:208-214 | a count of one means a single place of occurrence in every text iff no proper prefix of the string is its suffix |
| `FileEdit.ReplaceAllMeans` | packages/@lumenflow/cli/src/file-edit.ts:220-222 | replacing by itself is the identity and the length changes by the count times the difference |
| `FileEdit.FirstMatchReplaced` | packages/@lumenflow/cli/src/file-edit.ts:220-222 | replacing all puts the new string for the first match and goes on right behind it |
| `FileEdit.NoMatchKept` | packages/@lumenflow/cli/src/file-edit.ts:220-222 | and keeps what holds no match |
| `FileEdit.ReplaceAllIsUndone` | packages/@lumenflow/cli/src/file-edit.ts:220-222 | replacing back restores the text when the new string starts with a character the text lacks |
| `FileEdit.SingleMatchReplaced` | packages/@lumenflow/cli/src/file-edit.ts:220-222 | with one match, replacing all puts the new string in its place and keeps the rest |
| `FileEdit.OnlyFirstReplaced` | packages/@lumenflow/cli/src/file-edit.ts:225-227 | the single replacement puts the expanded new string for the first match and keeps the rest |
| `FileEdit.ExpandMeans` | packages/@lumenflow/cli/src/file-edit.ts:225-227 | in the new string `$$` becomes a dollar sign, `$&` the match, `` $` `` the text before it and `$'` the text after it, from left to right |
| `FileEdit.PathsAgreeIffPlain` | packages/@lumenflow/cli/src/file-edit.ts:220-226 | on a single match both paths write the same text, for every file and old string, iff the new string holds none of the four dollar patterns |
| `FileEdit.EditFile` | packages/@lumenflow/cli/src/file-edit.ts:170-257 | each refusal in the source's order with the file unchanged, or the text of the chosen path and the number of replacements |
| `RecentWorkspaces.Storage.SaveRecentWorkspace` | apps/web/src/components/workspace-selector.tsx:45-60 | the cell holds the old list without the path, with the visit added, sorted and cut; after an unreadable one it holds the visit alone |
| `RecentWorkspaces.VisitMeans` | apps/web/src/components/workspace-selector.tsx:45-52 | an entry is named by what follows the last slash of its path |
| `RecentWorkspaces.WithoutSelects` | apps/web/src/components/workspace-selector.tsx:50-52 | a save keeps exactly the old entries with other paths, in their order |
| `RecentWorkspaces.SortMeans` | apps/web/src/components/workspace-selector.tsx:54-55 | the sort orders by time from new to old, keeps every entry, and keeps the order of equal times |
| `RecentWorkspaces.StoredIsTidy` | apps/web/src/components/workspace-selector.tsx:45-60 | after any history, whatever the clock, at most five entries with distinct paths from new to old |
| `RecentWorkspaces.DisplayShowsStored` | apps/web/src/components/workspace-selector.tsx:71-78 | sorting and cutting again for display changes nothing |
| `RecentWorkspaces.SaveIsKeptIffFewAreNewer` | apps/web/src/components/workspace-selector.tsx:50-59 | a save keeps its own path iff fewer than five other entries are newer |
| `RecentWorkspaces.RecencyMeans` | apps/web/src/components/workspace-selector.tsx:50-52 | the unbounded list holds exactly the paths saved, each as its last save, from the last to the first |
| `RecentWorkspaces.StoredIsRecencyCut` | apps/web/src/components/workspace-selector.tsx:45-60 | under a clock that does not go back, the cell is the first five of that list, although each save sees only the cut one |

## Left out

- Network, files and platform libraries: requests become steps or parameters that may fail; gunzip, SHA-256, JSON and YAML parsing, Zod, `Number`, `toLowerCase` and title tokenisation are arbitrary functions; clocks and random numbers are inputs.
- Text is a sequence of characters and a tar header is ASCII bytes: UTF-8 decoding and UTF-16 units are not modelled, and tar fields are trimmed of ASCII blanks only.
- The manifest summary (tools, policies, categories) derived from the manifest is represented by the manifest's bytes.
- PublishProtocol.PublishIsAllOrNothing: the steps start at the lookup; the rate and size limits before it are in `PublishHandler`.
- PublishHandler.HandlePublishVersion: a put that takes effect only after its call has ended is modelled in `PublishProtocol` alone (`Abandon`).
- PublishFiles.RunsKeepFiles: a stored tarball is represented by the integrity of its bytes and its path by the pack id and version; that slash-free ids give different paths is `KeysAreDistinct`.
- PublishHandler.HistoryIsGood: asks for pack ids without a slash and for a byte array that covers its buffer, both of which the routes provide (apps/web/src/server/pack-registry-route-adapters.ts:183-224 and apps/web/src/server/input-validation.ts are not part of this model).
- RegistryStores.BlobRegistryStore.ListPacks: the query match uses an arbitrary lower-casing function.
- Heartbeat.HeartbeatManager.Heartbeat: the health, assignment and budget fields and the log line are left out; the port is assumed not to call heartbeat back before it returns.
- Heartbeat.DelaysNeverFall: powers of two are exact, where the source's doubles would overflow after a thousand failures; the base and the cap are taken to be non-negative.
- Heartbeat.BackoffDoubles: the same of the powers of two, and the cap is taken to be non-negative.
- ConfigTree.GetConfigValue: does not model arrays met on the way (their indices and properties as path segments) or inherited properties; paths that meet an array are outside its precondition.
- ConfigTree.SetNestedValue: paths that meet an array are outside its precondition, as for `GetConfigValue`; the clone is updated as a value through its path, so aliasing inside the clone is not modelled.
- ConfigTree.FindStrippedKeys: the order of the keys found is not modelled, and they are paths rather than dotted text.
- ConfigCommands.ApplyPackConfigSet: sections with an array on the sub-path are outside its precondition.
- ConfigCommands.ApplyConfigGet: workspaces with an array on the key's path are outside its precondition.
- ConfigCommands.SetThenGet: like the commands, speaks of keys whose path inside the section meets no array; a section that is itself an array counts as empty, as in the source.
- ConfigCommands.SetLeavesTheRest: the same for the written key, and no array on the whole path of the other.
- ConfigCommands.NothingStrippedSilently: a key that the normalisation before the parse drops is accepted without effect and is not covered.
- ConfigCommands.ApplyWorkspaceRootSet: workspaces with an array on the key's path, inside the section for control_plane, are outside its precondition; the fallback for writable root keys that do not exist yet is unreachable and is left out.
- ConfigCommands.ApplyConfigSet: the same workspaces are outside its precondition; error texts and the did-you-mean hint are left out; the errors are told apart by kind.
- WorkspaceReplay.GroupTasksByStatus: group labels are left out; event kinds are a datatype with one case for any other kind.
- Reconnect.DelaysAreBounded: delays are exact real numbers; message parsing, receipts, approvals and evidence links of the hook are left out as accumulating loops with easier properties.
- TitleClusters.SimilarityMeans: ratios are exact where the source divides doubles.
- FileEdit.EditFile: the diff preview, the audit record and the encoding are left out, and a write that fails is taken to leave the file as it was.
- RecentWorkspaces.Storage.SaveRecentWorkspace: entries are well formed and times are whole milliseconds.
- Pattern scoring with exponentials, argument parsing, help texts, authentication, React components and the kernel packages are left out.
