# A verified model of the activity gateway's conversation log and its neighbours

The gateway keeps one append-only JSONL file per conversation thread. This project models that log as a
state machine over files, cache, index and open turns, and proves that its fast forms agree with the slow one:
re-reading the whole file. Six smaller algorithms of the same program are modelled beside it. Everything is
Dafny 4.11; `dafny verify dfyconfig.toml` checks the whole project.

## The conversation log

* `Text`, `Conversation`, `LineFormat` — lines, tail repair, and the data that a line carries. Printing and
  parsing one line of JSON and the redaction of strings and payloads are the four functions of a `Wire`; wherever
  a theorem needs that a line the writer prints is read back, it says so (`Lossless`), and `LineFormat` gives a
  format that meets this. A file is a text plus the logical time of its last change; a stamp is length plus time.
  SHA-256 digests are represented by what is hashed, so an identity is the pair of kind and payload without phase.
* `ThreadStates` — `ThreadState::from_events`, the slow form: a fold over events that restarts at each window line.
* `Reader`, `Paths` — parsing with header and corruption rules, tail repair, the choice between the base file and
  its ten recovered segments, and line slices.
* `Writers`, `Stores` — one turn. `Writers` holds the turn as a value (the specification), `Stores` the classes
  `RolloutStore` and `RolloutWriter` whose methods update their fields and the disk, each proved equal to the
  value-level specification, including the deduplication loop.
* `TurnLines`, `Dedup`, `Replay`, `QuietReplay`, `TurnViews` — the lines of a turn, field by field, what deduplication
  guarantees for any request, exactly when a request sent twice is quiet, and what readers get back.
* `ThreadIndexFile`, `Digests`, `LruCache` — the persisted index and the in-memory cache.
* `Servers` — the state machine: begin, append, finish, drop, crash (files of open turns cut at any character,
  index files lost), files appended to or created by others at any moment, and cache eviction. Turns of different
  threads interleave freely, turns of one thread never overlap.
* `Agreement` — cache and index against a full reload. `Agreement.FastEqualsReloadIff` is the main theorem.
* `Numbering`, `Tiling`, `RunTurns` — what holds of a thread's files, and of the turns begun on them, in runs in
  which others do not write to them. Conditions on a run are conditions on the thread in question; what happens in
  other threads does not matter.

## The other algorithms

`Calendar` (statistics ranges and timeline buckets in Beijing time), `Streams` (capture of server-sent events,
line draining, the response pipe), `ResponsesItems` (the printer of upstream requests, the strict and the
lenient parser, the bridge's validation), `Failover` (latency order, resting providers, retries, the candidate
loop), `RunScanner` (credential-like runs of characters) and `Recorder` (the life of a recorded stream).

## What the code does not promise

Some natural claims fail of the code. For each, a lemma gives the exact condition; several have a small failing
input beside it.

* A tool call id is taken before redaction and stored after it. A tool draft of a request leaves the live tool
  references equal to those of a reload exactly when redaction keeps its id or its key is known already
  (`Replay.DraftKeepsToolsIff`, for drafts that are written and drafts that are found; `Replay.ToolRefsAgreeIff` for a
  response item, which is always written); an id of URL-safe characters is kept by the run scanner exactly when it
  does not have 43 characters (`Replay.CredentialLikeIdsBreak`). The last part of `Agreement.FastEqualsReloadIff`, on
  tool references, therefore asks that redaction keeps the ids given to the thread.
* When others create the missing base file of a thread whose recovered segment is cached, the cache goes on serving
  the segment; a reload agrees exactly when the new base is corrupt (`Servers.CreatedBaseIff`).
  `Agreement.FastEqualsReload` asks, for the thread in question, that this did not happen.
* The window line stores the redacted window id. A session whose window id redaction changes gets a new window
  line, and with it a fresh deduplication window, in every turn (`QuietReplay.NextTurnNeedsWindowIff`). Its line equals
  the one before it exactly when the stored window is what redaction makes of the session's, which also happens to
  two different ids with one redacted form: `Numbering.BegunWindowsIff` for one turn, `RunTurns.WindowsDifferIff` for
  whole runs, and `RunTurns.MaskedWindowsRepeat` for two ids that differ in a credential-like run only.
* Equal drafts of a request without ids get increasing references exactly when the later one is written or the numbers
  listed for them increase (`QuietReplay.RefsIncreaseIff`). They always do while others do not write to the thread
  (`RunTurns.RefsIncrease`); in a file in which others have repeated a number, two drafts can share a reference
  (`RunTurns.RepeatedNumberIsShared`).
* A request may carry one message both with and without an item id. The occurrence counter advances on a draft found
  by its id, so the list ends up with c + Late events instead of max(c, n) (`Dedup.ListingLaw`); a replay writes
  nothing exactly when each id-less draft occurs within its list (`QuietReplay.ReplayWritesNothingIff`), and also
  yields the same references exactly when each is at its own place and no response reuses a key
  (`QuietReplay.ReplayIsIdempotentIff`). `Replay.MixedRequestWritesAgain` is a small request that is not quiet.
* The running digest of the content differs between the live state and a reload from the first usage or error
  event on (`Replay.ChainAgreesIff`).
* `decode_digest` accepts upper-case digits and a plus sign in front of a digit, so encoding undoes it only on
  lower-case text (`Digests.EncodeDecodeIff`).
* The strict and the lenient parser read the same messages except where an image has a blank file id or detail,
  or a message item carries a call id (`ResponsesItems.StrictRefinesLenient`).
* Row and summary of a recorded stream can part once the writer is gone: by an end whose completion differs from
  the summary's, and by an item error or a disconnect after a Completed summary. `Recorder.AgreementIff` says that
  these, on an inserted stream that has not failed, are all; `Recorder.SecondEndOverwritesRow` is one such run.

## Model

| member | source | states |
|---|---|---|
| Agreement.FastEqualsReloadIff | src/store/rollout/cache.rs:208-231 | after every interleaved run whatsoever of begin, append, finish, drop, crash, writing by others and eviction, a state taken from cache or index equals a full reload in path, format, line count, number, window, event references and content count exactly when the reload would read the segment the state stands for; then the reload would repair nothing, and the tool references agree too when redaction kept the ids given to the thread |
| Agreement.FastEqualsReload | src/store/rollout/cache.rs:208-231 | without condition on the segment for every thread whose base file nobody created behind a recovered segment in use: the fast state equals the reload |
| Servers.RunInv | src/store/rollout/writer.rs:210-246 | every run keeps, thread by thread: whatever cache or index would serve stands for its file as it is, the file is the chosen one where nobody disturbed the thread, tool references agree where ids were kept, and every open turn's counters match the text it found plus the text it wrote |
| Servers.StepInv | src/store/rollout/writer.rs:62-171 | each single step keeps that invariant, for all threads at once |
| Servers.ResolveInv | src/store/rollout/cache.rs:208-231 | resolving keeps the invariant, touches no other thread, and yields a state that fits the text the turn will continue |
| Servers.LoadedDescribes | src/store/rollout/read.rs:123-166 | the state rebuilt from the repaired chosen segment describes and stamps that file, and the segment stays the chosen one after the repair |
| Servers.ReachedLater | src/store/rollout/read.rs:123-195 | a corrupt candidate stays corrupt when others append to it, so a segment that was reached stays reached |
| Servers.FinishInv | src/store/rollout/writer.rs:191-249 | finishing keeps the invariant, whether it publishes its state or finds text of others in the file |
| Servers.OutsideInv | src/store/rollout/cache.rs:20-31 | whatever is still served after others appended to a file or created one stands for its file as it is now, and for the chosen file unless they created a base behind a segment in use |
| Servers.CreatedBaseIff | src/store/rollout/cache.rs:208-231 | a cached recovered segment is still served after others created the missing base, and a reload chooses that segment exactly when the new base is corrupt |
| Servers.CrashInv | src/store/rollout/read.rs:247-269 | cutting the files of open turns anywhere and losing index files keeps the invariant |
| Writers.BeginInSync | src/store/rollout/writer.rs:62-171 | after `begin`, format, event references, window and counters of the writer are those of a reparse of the whole file, and tool references too when the state's were and redaction keeps the request's ids |
| Writers.AppendInSync | src/store/rollout/writer.rs:175-185 | appending response content keeps the writer equal to a reparse and its counters exact |
| Writers.FinishInSync | src/store/rollout/writer.rs:191-249 | the turn_end line keeps the writer equal to a reparse and its counters exact |
| Writers.ParseOneMore | src/store/rollout/read.rs:271-311 | one more written line extends the parse by exactly that event, one line and the larger number |
| Writers.SyncProcess | src/store/rollout/writer.rs:265-293 | the deduplication pass keeps window, event references and counters equal to a reparse, and tool references too when redaction keeps the request's ids |
| Dedup.ListingLaw | src/store/rollout/writer.rs:265-293 | for any request, ids mixed or not: an identity listed c times is listed c + Late times afterwards, Late counting its drafts from occurrence c on that no key makes known; earlier entries stay in front; each draft no key makes known gets the event at its place |
| Dedup.CountingLaw | src/store/rollout/writer.rs:265-293 | with c earlier events of an id-less identity in the window and n drafts of it, exactly max(c, n) events are listed afterwards, and the k-th draft gets the number of the k-th one |
| Dedup.FileHoldsMax | src/store/rollout/writer.rs:334-338 | the same law read off the file: the current window holds exactly max(c, n) such events |
| RunTurns.RefsIncrease | src/store/rollout/writer.rs:265-293 | in every run in which others do not write to the thread, a begun turn's references of equal id-less drafts are distinct and increase |
| QuietReplay.RefsIncreaseIff | src/store/rollout/writer.rs:265-293 | for any state not ahead of its file: two equal id-less drafts get increasing references exactly when the later one is written or the numbers listed for them increase |
| RunTurns.RepeatedNumberIsShared | src/store/rollout/writer.rs:265-293 | a four-line file on the failing side: others used a number twice, and two equal drafts get it both |
| Dedup.RefsAreSound | src/store/rollout/writer.rs:265-306 | one reference per draft, in input order; each names an earlier event of the draft's kind; unless its key was known before, it names an event of the current window that stores the draft's content: type, redacted tool call id and redacted JSON |
| Dedup.LinesOfRequest | src/store/rollout/writer.rs:265-293 | the lines a request adds are those of the drafts that were not found, in order and numbered on; each stores its draft's content and phase, and its number is the draft's reference |
| Conversation.SameIdentityIff | src/store/rollout/support.rs:64-98 | two drafts are taken for one another exactly when type, redacted tool call id and redacted JSON agree, whatever their phases |
| Conversation.WrittenStores | src/store/rollout/support.rs:100-135 | the event written for a draft stores its type, redacted tool call id, redacted JSON and phase |
| TurnLines.BegunLines | src/store/rollout/writer.rs:149-171 | what `begin` writes, line by line: the header and the window where they are needed, the turn with its redacted id and details, the drafts that were not found, the context with all references |
| TurnLines.BegunWindow | src/store/rollout/writer.rs:96-162 | behind `begin` the file's window has the session's generation and its window id, redacted when a window line was written, which is when the window before was not the session's own |
| TurnLines.AppendedLine | src/store/rollout/writer.rs:175-185 | an appended item adds one line with its content and phase, or nothing once the turn is finished |
| TurnLines.FinishedLine | src/store/rollout/writer.rs:191-249 | the first finish adds one turn_end line with the status and the redacted details it was given, and the summary has that status; later ones add nothing |
| RunTurns.FinishedTurnReads | src/store/rollout/writer.rs:191-249 | at any later time of a run in which others do not write to the thread and no crash cuts its files, the summary's range reads back a slice with the summary's count, size and text that ends in the turn_end with the given status and redacted details |
| QuietReplay.ReplayIsIdempotentIff | src/store/rollout/writer.rs:265-293 | the same request, sent again in the same window after the turn ended and responses were appended, writes only its turn and context lines with the same references exactly when each id-less draft's place is its occurrence and no response reuses a key of the request |
| QuietReplay.ReplayWritesNothingIff | src/store/rollout/writer.rs:265-293 | the second submission writes no content exactly when each id-less draft occurs within the list its identity has by then, given by the first submission alone |
| QuietReplay.WritesNothingIff | src/store/rollout/writer.rs:265-293 | one pass over a request writes nothing exactly when every draft is known by a key or occurs within its identity's list |
| QuietReplay.FitsIsNotAhead | src/store/rollout/cache.rs:75-125 | a state that fits its file refers to no number ahead of the file's last one |
| Replay.ReplayIsIdempotent | src/store/rollout/writer.rs:265-293 | the quiet direction for any state: places kept and keys apart make the second submission write its turn and context lines only, with the same references |
| Replay.UnmixedKeepsPlaces | src/store/rollout/writer.rs:276-282 | a request whose identities always or never carry a stable id, and that has no usage or error draft without an id, keeps all places |
| QuietReplay.NextTurnNeedsWindowIff | src/store/rollout/cache.rs:131-138 | after a turn with its responses and its end, the next turn of the session needs a window line exactly when this one did and redaction changes the window id |
| Replay.WindowIsStableIff | src/store/rollout/cache.rs:131-138 | the same for the state right behind `begin` |
| Numbering.BegunWindowsIff | src/store/rollout/writer.rs:96-171 | begun on any file that its state fits, a turn leaves no two window events in a row alike exactly when the file had none and the stored window is not the redacted form of a session whose own id differs from it |
| RunTurns.WindowsDifferIff | src/store/rollout/writer.rs:96-171 | after every run in which others do not write to the thread and no crash cuts its files: no two window events in a row are alike in them exactly when no turn of the thread was begun in such a state |
| RunTurns.MaskedWindowsRepeat | src/store/rollout/writer.rs:295-307 | the failing input: on a new thread, two turns under window ids that differ in a 43-character run only write the same window twice |
| Replay.MixedRequestWritesAgain | src/store/rollout/writer.rs:276-282 | a two-draft request on the failing side of QuietReplay.ReplayWritesNothingIff: one event is listed for both drafts, and a replay writes another |
| Replay.DraftKeepsToolsIff | src/store/rollout/writer.rs:265-293 | one tool draft of a request, written or found, keeps live and reloaded tool references equal exactly when redaction keeps its id or its key is known already |
| Replay.ToolRefsAgreeIff | src/store/rollout/support.rs:121-131 | writing a tool event, whatever its key was before, keeps live and reloaded tool references equal exactly when redaction keeps the id |
| Replay.CredentialLikeIdsBreak | src/domain/activity/redaction.rs:85-112 | under the run scanner a URL-safe tool call id is kept exactly when it does not have 43 characters |
| Replay.ChainAgreesIff | src/store/rollout/support.rs:32-41 | the live content chain stays the reloaded one exactly when the event written is a content event |
| TurnViews.ContextRefsForTurn | src/store/rollout/mod.rs:78-102 | the flag loop returns the references of the first context behind the turn line |
| TurnViews.ContextOfBegunTurn | src/store/rollout/mod.rs:78-102 | the context of a begun turn reads back exactly the references `begin` computed, now and after any later events, when redaction keeps the turn id; otherwise only later events count |
| RunTurns.TurnReadsBack | src/store/rollout/mod.rs:72-102 | at any later time of a run in which others do not write to the thread and no crash cuts its files, a begun turn's references resolve to one event per draft, in order and of the draft's kind, which stores the draft's content unless its key was known before; the context line yields them when redaction keeps the turn id and no earlier turn had it |
| TurnViews.ResolvedInOrder | src/store/rollout/mod.rs:72-76 | references that name events resolve one by one, in order, to events of the expected kinds |
| TurnViews.FindMeaning | src/store/rollout/mod.rs:72-76 | a reference names the first event with its number |
| TurnViews.ResolveAppend | src/store/rollout/mod.rs:72-76 | references are resolved one by one, in order, and those that name no event are skipped |
| ThreadStates.FromEvents | src/store/rollout/cache.rs:75-125 | the loop that fills and clears the maps computes the fold over all events |
| ThreadStates.RebuildRefsAreWindowSeqs | src/store/rollout/cache.rs:75-125 | the rebuilt list of an identity is exactly the numbers of its events behind the last window event, in order |
| ThreadStates.RebuildItemsAreLastToolEvents | src/store/rollout/cache.rs:75-125 | the rebuilt item references map each tool key to the last event that carries it, and hold nothing else |
| ThreadStates.RebuildCountsContent | src/store/rollout/cache.rs:75-125 | the rebuilt chain and count are those of all content events of the file, whatever its windows |
| ThreadStates.RebuildWindowIsLast | src/store/rollout/cache.rs:75-125 | the rebuilt window is that of the last window event, and there is none before the first |
| Text.RepairIsLongestCompletePrefix | src/store/rollout/read.rs:247-269 | tail repair keeps the longest prefix that ends in a line feed |
| Text.RepairIdempotent | src/store/rollout/read.rs:247-269 | a second read finds nothing to repair |
| Text.RepairAppend | src/store/rollout/read.rs:243-269 | repairing complete text followed by more text repairs the tail only |
| Text.LineEnds | src/store/rollout/read.rs:271-273 | a line ends at a line feed, with or without a carriage return in front, and the last one may have no end |
| Conversation.DecodeEncode | src/store/rollout/writer.rs:349-361 | written lines read back as the values that were written |
| Conversation.ValuesAppend | src/store/rollout/writer.rs:349-361 | lines appended to a complete file add exactly their values |
| Conversation.ItemRefKeyInjective | src/store/rollout/support.rs:129-131 | the textual item key determines kind and id |
| Conversation.ItemRefKeyForms | src/store/rollout/support.rs:129-131 | what the keys of the four content types look like |
| Paths.NamesAreDistinct | src/store/rollout/read.rs:217-232 | with safe identity and thread names, no two segments of any threads share a file name |
| Paths.NamesOnDisk | src/store/rollout/read.rs:209-232 | the names of the base file and of the first, second and tenth recovered segment |
| Paths.SafeIff | src/store/rollout/support.rs:78-84 | safe names are the texts of 1 to 128 characters that are URL-safe |
| Reader.ParseContents | src/store/rollout/read.rs:271-311 | the header decision and the line loop compute the parse of the line values, errors included; what it is, `Reader.ParseMeaning` says |
| Reader.ParseMeaning | src/store/rollout/read.rs:271-311 | a file is refused exactly when its first line is an unsupported header or one without a thread, and corrupt exactly when it is not and a line is broken; otherwise its events are those of all its lines in order, with or without a header, its format is V1 exactly with one, and the last number is the largest |
| Reader.InspectMeaning | src/store/rollout/read.rs:171-195 | which candidates are missing, corrupt, broken or readable, from their complete lines |
| Reader.FaultsAreStable | src/store/rollout/read.rs:271-311 | a file that fails to parse fails in the same way whatever is appended |
| Reader.ParseAppend | src/store/rollout/read.rs:271-311 | appending lines to a readable file extends its events, line count and last number, or spoils it exactly when one of them does not parse |
| Reader.ChooseSegment | src/store/rollout/read.rs:123-195 | the loop over the candidates computes the specified choice |
| Reader.SegmentChoice | src/store/rollout/read.rs:123-195 | a used segment is readable and behind given-up ones only; a started one is missing; no corrupt file is ever picked |
| Reader.UsedIff | src/store/rollout/read.rs:123-195 | segment j is used exactly when it is readable and every candidate before it is corrupt or is the missing base |
| Reader.FailsIff | src/store/rollout/read.rs:123-195 | without an unsupported header, loading fails exactly when the recovered segments are all corrupt and the base is corrupt or missing |
| Reader.ReadSliceLines | src/store/rollout/read.rs:69-121 | the slice method's checks and loop compute the specified slice, errors included |
| Reader.SliceMeaning | src/store/rollout/read.rs:69-121 | a torn file and a range that is neither within the text nor empty behind a line are errors of their own; otherwise the slice holds the events of the selected lines in order, their count, text and size, unless a selected line is broken |
| Reader.SliceOfWritten | src/store/rollout/read.rs:69-121 | the lines written between a complete prefix and suffix are read back by their range: events, count, size and text |
| ThreadIndexFile.ValidateRefs | src/store/rollout/index.rs:63-151 | the validation loops accept exactly the indexes with nonempty lists of numbers in 1..seq |
| ThreadIndexFile.IndexRoundTrip | src/store/rollout/index.rs:241-295 | a state written for its unchanged complete file loads back as itself exactly when its references are in range and the base's time can be stored |
| ThreadIndexFile.AcceptedIff | src/store/rollout/index.rs:63-151 | an index is accepted exactly when it has version 3, is this thread's, names one of its eleven files, was written for file and base as they are, and its numbers and window fields are in order; the state is then the index's, field by field |
| ThreadIndexFile.WrittenIff | src/store/rollout/index.rs:241-295 | an index is written exactly for a nonempty thread whose file is the state's, complete, and changed at a time that can be stored |
| ThreadIndexFile.StaleIndexIsRejected | src/store/rollout/index.rs:63-151 | any change of the stamp of the source or of the base rejects the index |
| ThreadIndexFile.TrackedRefsAreValid | src/store/rollout/index.rs:63-151 | a state that tracks its file has references in range only |
| Numbering.ReachableIndexRoundTrip | src/store/rollout/index.rs:63-151 | in every run in which others do not write to the thread, a state of it that the cache holds and would serve is loaded back unchanged from the index written for it |
| Digests.DecodeDigest | src/store/rollout/index.rs:353-363 | the loop over pairs of characters decodes 64 characters or refuses |
| Digests.DecodeEncode | src/store/rollout/index.rs:349-363 | decoding undoes encoding |
| Digests.EncodeDecodeIff | src/store/rollout/index.rs:349-363 | encoding undoes decoding exactly on lower-case text |
| Digests.DigitsAre | src/store/rollout/index.rs:349-363 | the digits are the hexadecimal ones, read in either case |
| Numbering.NumberingSurvives | src/store/rollout/writer.rs:309-361 | after every run in which others do not write to the thread, with crashes cutting anywhere: the k-th event has number k and there is one line more than the last number; adjacent window events differ when no turn was begun whose window line repeats the stored one |
| Numbering.RunIsRegular | src/store/rollout/writer.rs:99-162 | every such run keeps the thread's files regular, its open turn included |
| Numbering.OtherStep | src/store/rollout/read.rs:225-232 | candidate files belong to one thread: a step of another thread leaves this thread's files and turn alone |
| Tiling.TurnsTile | src/store/rollout/writer.rs:363-377 | turn ranges adjoin from line 1 to the last line, each range reads back its turn, events concatenate to the file's and sizes sum to its length, for every thread others do not write to and no crash cuts |
| Tiling.SliceAtAnyTime | src/store/rollout/read.rs:69-121 | the range of an ended turn reads back that turn at any later time, also while another turn is open |
| Tiling.RangesAdjoin | src/store/rollout/writer.rs:137-142 | each turn starts on the line behind the previous turn's end |
| LruCache.InsertLaw | src/store/rollout/cache.rs:176-195 | keys stay distinct, a positive limit is kept, and a new key in a full list drops exactly the front entry |
| LruCache.LookupAfterInsert | src/store/rollout/cache.rs:176-195 | after an insertion the new state is found under its key and every other key finds what it found before, except the evicted one |
| LruCache.TouchLaw | src/store/rollout/cache.rs:169-174 | a hit loses no entry and keeps keys distinct |
| LruCache.TouchMoves | src/store/rollout/cache.rs:169-174 | a hit moves its entry to the end and leaves the others in order, a miss changes nothing |
| LruCache.RemovePathsKeepsOrder | src/store/rollout/cache.rs:197-204 | removal works entry by entry and keeps the order of the survivors |
| LruCache.ThreadIndex.SizeIsBounded | src/store/rollout/cache.rs:176-195 | an index that its methods have kept valid never holds more entries than its positive limit |
| LruCache.ThreadIndex.Get | src/store/rollout/cache.rs:169-174 | a lookup returns the listed state and moves it to the end of the recency order |
| LruCache.ThreadIndex.Put | src/store/rollout/cache.rs:176-195 | insertion with eviction of the smallest stamp refines insertion into the recency list |
| LruCache.ThreadIndex.Remove | src/store/rollout/cache.rs:197-204 | retaining other paths refines removal from the recency list |
| Stores.RolloutStore.ReadThreadEvents | src/store/rollout/read.rs:247-269 | reading repairs the tail in place, changes no other file and returns the parse of the complete lines |
| Stores.RolloutStore.LoadThreadSource | src/store/rollout/read.rs:123-195 | the method's new disk, cache and index are those of the specified load |
| Stores.RolloutStore.ResolveThreadSource | src/store/rollout/cache.rs:208-231 | cache, then index, then file: result and new state are the specified ones |
| Stores.BeginTurn | src/store/rollout/writer.rs:62-171 | the new writer is the specified one, its file is the old text followed by the turn's lines, and no other file changes behind the resolution |
| Stores.RolloutWriter.AppendRequestEvents | src/store/rollout/writer.rs:265-306 | the loop with its mutable occurrence map writes what the deduplication pass specifies, ending in the context line |
| Stores.RolloutWriter.AppendDraft | src/store/rollout/writer.rs:175-185 | a finished writer refuses; otherwise fields and file move on as specified |
| Stores.RolloutWriter.Write | src/store/rollout/writer.rs:309-340 | one event line: number, counters, maps and file text move on together |
| Stores.RolloutWriter.FinishWith | src/store/rollout/writer.rs:191-249 | the first finish writes turn_end and publishes only on the expected length; a later one only returns the summary |
| Calendar.TimelineBuckets | src/domain/stats.rs:178-221 | the loop ends; buckets are contiguous from the start, each ends at the next boundary, the last reaches the end |
| Calendar.RangeTiles | src/domain/stats.rs:98-143 | for every instant and range but All the buckets tile the range exactly: 24 hours, 28 quarter days, the days of the month, 24 half months |
| Calendar.BucketsLieThere | src/domain/stats.rs:178-221 | where each bucket of each range but All lies: hours, quarter days and days from the start, or from the 1st or the 16th of each month of the year |
| Calendar.RangesStart | src/domain/stats.rs:98-133 | each day, month and year range starts at midnight of the date it is named after |
| Calendar.FixedPoints | src/domain/stats.rs:223-232 | 1970-01-01 was a Thursday, the epoch is 8 o'clock in Beijing, days have 24 hours |
| Calendar.MonthLengths | src/domain/stats.rs:234-252 | the lengths of the months, leap years included |
| Calendar.AllMonthsTile | src/domain/stats.rs:154-161 | one bucket per month from the first activity's month to the current one |
| Calendar.AllDaysTile | src/domain/stats.rs:163-168 | one bucket per day from the first activity's day to today |
| Calendar.RangesAroundNow | src/domain/stats.rs:98-133 | now lies in each current range and each previous range ends where the current one starts |
| Calendar.WeeksStartOnMonday | src/domain/stats.rs:98-133 | the week ranges start on a Monday |
| Calendar.MonthHelpers | src/domain/stats.rs:234-252 | first, next and previous month are those of the month index |
| Calendar.DateRoundTrip | src/domain/stats.rs:223-252 | every valid date is the date of its day number |
| Streams.RawStreamContentCapture.ObserveChunk | src/domain/activity/stream.rs:41-57 | the chunk loop equals observing the bytes one at a time |
| Streams.RawStreamContentCapture.Flush | src/domain/activity/stream.rs:109-173 | an event's data lines are joined, decoded and folded into text and tool calls as specified; what that amounts to over a stream, `Streams.CaptureMeaning` says |
| Streams.CaptureMeaning | src/domain/activity/stream.rs:41-173 | a finished capture of a stream, however it is cut: the text is the content of the decoded events in order, the reasoning theirs, each tool call the last id and name and all arguments under its index, and it is complete exactly when an event of its protocol closed the stream |
| Streams.JoinAppend | src/domain/activity/stream.rs:109-113 | an event's data is its data lines in order with line feeds between them |
| Streams.TrimStartMeaning | src/domain/activity/stream.rs:92-107 | of a data line just the white space in front is dropped |
| Streams.FinishIsBlankLine | src/domain/activity/stream.rs:59-65 | finishing equals observing a line end and a blank line: the trailing line is taken as it stands and the trailing event dispatched |
| Streams.FinishedStream | src/domain/activity/stream.rs:41-65 | the finished capture of a whole stream, however it is cut into chunks, is the capture of its bytes with a line end and a blank line behind them |
| Streams.ChunkIndependence | src/domain/activity/stream.rs:41-107 | two splittings of the same bytes end in the same capture, line ends split across chunks included |
| Streams.CaptureIsFoldOverLines | src/domain/activity/stream.rs:41-107 | a capture is a fold over the closed lines, the unfinished line waits in the buffer |
| Streams.LineBuffer.DrainLines | src/codec/bridge/stream/sse.rs:1-16 | draining returns the closed lines, without their line ends, and keeps the remainder |
| Streams.DrainRunIsWhole | src/codec/bridge/stream/sse.rs:1-16 | push then drain, over any chunks, yields the closed lines of the concatenation |
| Streams.RemainderIsTail | src/codec/bridge/stream/sse.rs:1-16 | the remainder is the part behind the last line feed and has none |
| Streams.LinesMakeBytes | src/codec/bridge/stream/sse.rs:1-16 | without carriage returns, lines and remainder make up the bytes again |
| Streams.ResponsePipe.Next | src/codec/bridge/stream/pipeline.rs:116-138 | each pull emits the next item of the specified output and nothing is lost, reordered or repeated |
| Streams.ErrorFreePipe | src/codec/bridge/stream/pipeline.rs:116-138 | without upstream errors the output is all chunk outputs in order, then those of finish |
| Streams.FailureInPlace | src/codec/bridge/stream/pipeline.rs:116-138 | an upstream error reaches the client in its place, behind all outputs of the chunks before it |
| ResponsesItems.EncodeMessageItems | src/codec/providers/responses/request.rs:123-148 | the loop prints the message item and one item per tool call; their fields are those of `ResponsesItems.PrintedMessage` |
| ResponsesItems.PrintedMessage | src/codec/providers/responses/request.rs:123-220 | the printed items, field by field: type, role, ids, names and arguments; text alone as one string, other content part by part with the part type of the role |
| ResponsesItems.TextInPlace | src/codec/providers/responses/request.rs:233-242 | each text of a content list stands in the joined string behind the texts before it and in front of those after it, with line feeds between them; images contribute nothing |
| ResponsesItems.PrintThenParse | src/codec/bridge/responses/items.rs:10-133 | printed messages parse back to their normal form exactly when ids and names are not blank and images refer to something; otherwise parsing fails |
| ResponsesItems.NormalFormsComeBack | src/codec/bridge/responses/items.rs:10-133 | a normal form is a fixed point of printing and strict parsing exactly when the messages have nonblank ids and names and usable images |
| ResponsesItems.StrictPartMeaning | src/codec/bridge/responses/items.rs:99-133 | which part is read as which text or image |
| ResponsesItems.StrictMessageMeaning | src/codec/bridge/responses/items.rs:26-48 | which item is read as which message, role by role |
| ResponsesItems.StrictCallMeaning | src/codec/bridge/responses/items.rs:50-71 | which item is read as which call: by its call id, or its id in the absence of one |
| ResponsesItems.StrictOutputMeaning | src/codec/bridge/responses/items.rs:73-87 | which item is read as which tool output |
| ResponsesItems.StrictRefuses | src/codec/bridge/responses/items.rs:14-24 | items of other types, and only they, are refused as unsupported |
| ResponsesItems.BlankIff | src/codec/bridge/responses/items.rs:135-140 | blank text is what trimming leaves nothing of |
| ResponsesItems.DecodeInput | src/codec/bridge/responses/input.rs:10-34 | the loop keeps decoded messages in order and stops at the first error |
| ResponsesItems.StrictRefinesLenient | src/codec/bridge/responses/input.rs:10-207 | where the strict parser succeeds the lenient one does, with as many messages, and the same ones exactly when no image field is blank text and no message item has a call id |
| ResponsesItems.ReasoningMeaning | src/codec/bridge/responses/input.rs:72-101 | a reasoning item becomes a message with its summary texts, or else its own; without text it is skipped |
| ResponsesItems.LenientCallMeaning | src/codec/bridge/responses/input.rs:122-151 | a call needs a name only; a missing id is call_unknown, missing arguments are an empty object |
| ResponsesItems.LenientMessageMeaning | src/codec/bridge/responses/input.rs:50-70 | a message keeps its call id, and unknown roles count as the user's |
| ResponsesItems.LenientOutputMeaning | src/codec/bridge/responses/input.rs:103-120 | a tool message without an output is empty |
| ResponsesItems.UnknownIsSkipped | src/codec/bridge/responses/input.rs:36-48 | items of unknown type are skipped |
| ResponsesItems.ValidatedPayloadsHaveNoImages | src/codec/bridge/responses/decode.rs:129-213 | a payload that passes the outer check and decodes, by either parser, has no image part |
| ResponsesItems.PrintedIsValidIff | src/codec/bridge/responses/decode.rs:129-213 | a printed request passes the outer check exactly when none of its messages has an image |
| ResponsesItems.CheckRefuses | src/codec/bridge/responses/decode.rs:129-203 | items with a phase or of another type are refused |
| Failover.FailoverRegistry.Rest | src/service/failover.rs:51-69 | the new entry continues an unexpired streak or starts one, with the specified rest |
| Failover.FailoverRegistry.Resting | src/service/failover.rs:76-86 | answers whether the provider rests now and forgets an expired entry |
| Failover.SweepIsInvisible | src/service/failover.rs:76-86 | forgetting expired entries never changes a later answer or streak |
| Failover.StreakBacksOff | src/service/failover.rs:51-69 | the k-th failure of an unbroken streak rests min(600 s, base times 2 to the min(k-1, 10)) |
| Failover.RestsGrowToCap | src/service/failover.rs:51-69 | rests never shorten along a streak and never exceed ten minutes |
| Failover.RestsDouble | src/service/failover.rs:51-69 | each failure of a streak doubles the rest, up to ten minutes; from the eleventh on it stays |
| Failover.ErrorsMean | src/service/failover.rs:12-30 | refused credentials rest five minutes, overload, timeouts, lost connections and unreadable answers one, other answers not at all; the upstream failures that rest one minute are those worth retrying, and all of them let another candidate try |
| Failover.AverageLatencies | src/store/storage/access.rs:106-140 | exactly the measured providers have an average, and it is sum over count |
| Failover.RowsAddUp | src/store/storage/access.rs:106-140 | sum and count add up over lists of rows |
| Failover.SelectCandidates | src/store/storage/access.rs:53-104 | the remembered provider first, the others by stable latency order; a permutation of the given ones |
| Failover.SortIsStable | src/store/storage/access.rs:53-104 | measured latencies ascending, then unmeasured; no candidate is lost; equals keep their order |
| Failover.FastestFirst | src/store/storage/access.rs:53-104 | behind an unmeasured candidate there are only unmeasured ones, and of two measured ones the faster comes first |
| Failover.OrderCandidates | src/inbound/v1/candidates.rs:45-53 | ready then resting, each in the given order, each asked at its own reading of the clock; no later answer and no failure count changes |
| Failover.FlaggedAre | src/inbound/v1/candidates.rs:45-53 | the ready and the resting part hold exactly the candidates with that answer, in the given order |
| Failover.RetryWithPolicy | src/outbound/client.rs:188-206 | ends with the first reply not worth retrying, or the last allowed one |
| Failover.AttemptIsUnique | src/outbound/client.rs:188-206 | the replies determine how many calls an attempt takes |
| Failover.RunCandidates | src/inbound/v1/candidates.rs:8-43 | the order is a permutation, ready first; the first success or final error ends the run; at most (retries + 1) calls per tried candidate, at most the allowed candidates; from then on the registry answers and counts failures as the old one with the marks of the answers |
| Failover.RunLeavesMarks | src/inbound/v1/candidates.rs:27-41 | the answering provider is cleared, a blamed one rests from its failure on, all others are untouched |
| RunScanner.RedactUrlSafeCredentials | src/domain/activity/redaction.rs:85-112 | the cursor loop ends and equals the run-by-run rewrite |
| RunScanner.RedactionLaw | src/domain/activity/redaction.rs:85-112 | every 43-character run is replaced, all other runs and separators stay in order, none is left, and redacting again changes nothing |
| RunScanner.UnchangedIff | src/domain/activity/redaction.rs:85-112 | a text is left alone exactly when it has no such run |
| RunScanner.PiecesMakeText | src/domain/activity/redaction.rs:85-112 | the maximal runs and separators of a text make up the text |
| Recorder.PublishedAtMostOnce | src/service/recording/state.rs:346-407 | under any order of calls and storage answers the summary is published at most once |
| Recorder.FailureIsFinal | src/service/recording/state.rs:122-166 | after a failure no call marks the row success or publishes a Completed summary |
| Recorder.CompletedIsEarned | src/service/recording/state.rs:346-432 | the very call that publishes a Completed summary is an end with its completion seen and every append successful |
| Recorder.RowMatchesSummary | src/service/recording/state.rs:122-166 | in every run with storage succeeding, an end on a live writer publishes a summary and leaves the row success exactly when it is Completed, which it is exactly when nothing failed |
| Recorder.AgreementIff | src/service/recording/state.rs:97-432 | in every run with storage succeeding, a call keeps row and summary in agreement exactly when it is not an end with another completion, an item error or a disconnect after a Completed summary, on an inserted stream that has not failed and has no live writer |
| Recorder.RunAgrees | src/service/recording/state.rs:97-432 | a run without such calls ends with row and summary in agreement |
| Recorder.SecondEndOverwritesRow | src/service/recording/state.rs:122-166 | the smallest run on the failing side of Recorder.AgreementIff: failed appends, then a second end |
| Recorder.StepLaw | src/service/recording/state.rs:214-432 | every call only adds effects, and only lawful ones |
| Recorder.StartMeaning | src/service/recording/state.rs:54-95 | start answers an error exactly when there is no writer or the row cannot be inserted and recording is required; otherwise the row is inserted, or, best effort, the stream failed silently |
| Recorder.EmptyMeaning | src/service/recording/state.rs:214-275 | an empty stream fails its row and summary; when that cannot be stored, only required recording says so |
| Recorder.InsertedAtMostOnce | src/service/recording/state.rs:54-275 | in every run the row is inserted at most once and the final usage stored at most once |
| Recorder.UsageIsStored | src/service/recording/state.rs:97-122 | a good item on a stream that runs well stores the final usage when it is there and was not stored before |
| Recorder.StreamRecordState.FinalizeRollout | src/service/recording/state.rs:346-407 | the writer is taken at most once, a failed append downgrades Completed to Partial and fails the row |

## Left out

- Agreement.FastEqualsReloadIff: message item ids and the content chain are not compared; the ids are not in the file, and `Replay.ChainAgreesIff` says when the chain agrees.
- Replay.CredentialLikeIdsBreak: speaks of the run scanner alone; the regular-expression passes of the redaction are not modelled.
- Tiling.TurnsTile: not for threads that others write to or whose file a crash cut, since a torn line belongs to no turn.
- Failover.RunCandidates: other requests that use the shared registry during the run are not modelled.
- Servers.OutsideInv: others append to files or create them; rewriting, truncating and deleting a file behind the store's back is not modelled.
- JSON text, SHA-256, UUIDs, clock text, fsync, file permissions and the resolution of modification times; every change of a file gets a fresh time.
- Sizes are counted in characters, so a file cut inside a multi-byte character, which the program cannot read as text, is not modelled.
- Input and output errors in the middle of a line, and the loss of lines the operating system had not written for turns that were dropped before a crash.
- Other steps between the lines of one begin, append or finish; what others append there is modelled at two points, before a turn's first line and behind its last.
- The lock map: one open turn per thread stands for the per-thread lock.
- Wrap-around of the 64-bit event number and of the cache's use counter; the cache methods require that the counter is below it.
- Normalisation of legacy line formats beyond recognising a header, an event, an ignored line and garbage.
- Labels of timeline buckets, time zones other than the fixed Beijing offset, and the calendar library's range limits.
- Floating-point rounding of latency averages, which are exact here, and the waiting time between retries.
- The JSON decoders of chat and Responses stream events, keep-alive comments and the statistics shared with the pipe; decoders are parameters.
- The payload serializer that replaces the model name, tools, and every check of `validate_responses_bridge_payload` that does not concern input items.
- The recorder's driver, session saving and usage arithmetic; SQL, HTTP handlers, encryption and the update client.
