# Vylux, modelled and proved in Dafny

Vylux serves signed, on-the-fly image renderings from an object store, and runs background jobs that turn videos and
audio files into streams, covers, previews and waveforms. This project models the parts of it that hold state or do
arithmetic, in the form the Go code has, and proves what they promise. `dafny verify dfyconfig.toml` checks everything.

The modules, one per component:

| file | what it models |
|---|---|
| `Options.dfy`, `Signing.dfy` | the two parsers of the option language, its canonical printer, the text behind the cache key, and the texts that URL signatures cover |
| `LruSpec.dfy`, `Lru.dfy` | the byte-bounded memory cache: a list specification, and the linked list, map and counter that refine it |
| `Media.dfy`, `TaskQueue.dfy`, `Cleanup.dfy` | object keys, index rows and job rows; cancelling queue entries call by call; and the cleanup of a content hash, over services that fail at any call, before or after they took effect |
| `ImageCache.dfy` | the image handler from the cache lookup on, and runs of requests, storage write-backs and cleanups |
| `Fit.dfy`, `Transcode.dfy`, `Ladder.dfy` | aspect fitting, rung selection, grouping by codec, encoding, packaging and bandwidth estimates |
| `OptionMaps.dfy`, `Requests.dfy`, `Pipelines.dfy` | job options as JSON maps, the two canonicalisers, validation, fingerprints, payloads, and the structured pipelines that options are built from |
| `VideoFlow.dfy`, `AudioFlow.dfy` | the stages of `video:full` and `audio:transcode` and the objects they write, under every pattern of failing steps |
| `Retry.dfy`, `AudioJobs.dfy` | retry plans, rebuilt requests and what completing them restores; fingerprints of audio requests and the runs of their jobs |
| `RateLimit.dfy` | the fixed-window limiter over whole traces |
| `Waveform.dfy`, `LineScan.dfy` | peak binning and the incremental line splitter |
| `Text.dfy`, `Arith.dfy` | strings, decimal numbers, products and quotients |

How the outside world enters: Go strings are byte strings (a `char` is a byte). SHA-256 is an arbitrary injective
function, and a signature is compared by comparing the signed text. Stores, tables, queues and Redis are maps. Whether
a call to them works is a parameter: a fault oracle indexed by the call in `TaskQueue` and `Cleanup`, one each for stores, reads of queue entries and other
queue calls, a record of step outcomes in
`VideoFlow`, `AudioFlow` and `ImageCache`, a fault per request in `RateLimit`. Rendering, probing, encoding and packaging
are deterministic functions of their source and parameters. Clocks are arguments. Aspect ratios are exact quotients, and
amplitudes, durations and shares are exact reals.

Some results are limits that the code has, each stated with the exact condition:

- The handler's option parser refuses white space around the options, which the signer's canonicaliser trims
  (`ParsersAgree`; every accepted text with a space in front is an example, `SpaceDivides`).
- The handler strips one leading slash and the signer another, so requests with one signature fetch one object exactly
  when both or neither kept a slash (`SameSignatureSameTarget`, with `/a.png` and `//a.png` in
  `KeptSlashSplitsObjects`).
- An encrypted image message is the only one with its bytes exactly when neither token nor format holds a NUL byte
  (`EncryptedImageUniqueIff`); the supported formats hold none (`SupportedFormatIsWellFormed`).
- Stack inclusion between two cache sizes holds exactly when no item has a size between them, or nothing fits the
  smaller cache; an item the larger cache takes and the smaller one refuses breaks it (`StackInclusionIff`).
- A cleanup that took the rows of its hash is final exactly when no write-back of the hash was in flight
  (`CleanupIsFinalIff`); in every other state the landing write-back leaves an object that no later cleanup reaches
  (`LateWriteBackEscapes`).
- `cancelTask` reads an error of `GetTaskInfo` as an absent queue entry. Whatever fails, it reports success for an entry
  that is still there exactly when it overlooks the entry (`WrongSuccessIff`): the entry sits in a queue that is not looked
  into, or a read of it fails in an attempt that finds it still there. `FateOf` says which call that is, from the entry and
  the faults before the cancellation starts. A confirmed cleanup leaves exactly the overlooked entries of its jobs; when
  reads of entries work it leaves none in the queues that jobs are put into, whatever else fails; and with only the queue
  service down every cleanup confirms and leaves all of them (`Cleaner.Cleanup`, `UnreadableTaskSurvives`).
- Fitted frames stay inside box and source exactly when no side is a single pixel (`FitStaysInsideIff`, `OnePixelGrows`).
- Every resolved rung is packaged exactly when all templates use one of the two encoded codecs (`PackagingIsComplete`,
  `ThirdCodecIsMissed`).
- The handler's audio canonicaliser leaves canonical options alone exactly when validation accepts their encryption
  (`CanonicalisersAgreeIff`, `EncryptionAloneDisagrees`), and a structured audio pipeline builds invalid options exactly when it combines encryption
  and downloads (`BuiltAudioIsValidIff`).
- Completing a retried `video:full` job restores what one full success writes exactly when a retried cover has no
  negative time and a retried preview a start other than zero: `video:preview` does not apply the default start that the
  full job applies (`RetryRestoresIff`; the default pipeline with a failed preview is such a case,
  `DefaultPreviewRetryDiffers`). The comment on the option promises the default 2 for both; the model follows
  the code.
- An audio stage that was not asked for can still fail: the directory for downloads is always made
  (`DisabledStageFailsIff`).
- Rate-limit buckets accept exactly their first requests exactly for windows of a second or more; a shorter window is
  counted in buckets of a minute whose counters are dropped after five seconds (`BucketsAcceptTheirFirstIff`). Within one
  window twice the limit is accepted around the end of a bucket (`TwiceIsReached`), and never more exactly when the window
  is at most a nanosecond longer than its whole-second bucket, or the limit accepts nothing
  (`WindowAcceptsAtMostTwiceIff`); a window of one and a half seconds sees three times the limit (`OneAndAHalfSeconds`).

## Model

| member | source | states |
|---|---|---|
| ImageOptions.ParseOptions | internal/image/options.go:109-152 | the loop computes the specification `Parsed`, whose meaning the lemmas below give |
| ImageOptions.CanonicalizeImageOptions | internal/signature/hmac.go:57-115 | the loop computes the specification `Canonical`, error cases included |
| ImageOptions.CanonicalMeans | internal/signature/hmac.go:57-115 | accepts blank text or valid tokens only, and prints the last value of each prefix in the order w, h, q |
| ImageOptions.ParsersAgree | internal/image/options.go:109-152 | the handler accepts a string if and only if the signer does and it has no white space around it; the options read are the last value per prefix |
| ImageOptions.SpaceDivides | internal/signature/hmac.go:57-61 | an accepted text with a space in front keeps its canonical form with the signer and is refused by the handler |
| Text.TrimSpaceStrips | internal/signature/hmac.go:57-61 | trimming removes the white space on both sides of a text that starts and ends in visible seven-bit characters, and nothing else |
| ImageOptions.CanonicalKeepsMeaning | internal/signature/hmac.go:89-115 | canonicalising is idempotent, and re-parsing the canonical text gives the options of the original |
| ImageOptions.SameCanonical | internal/signature/hmac.go:66-115 | two accepted strings have one canonical form if and only if the last value of every prefix agrees, whatever the token order |
| ImageOptions.PrintedMeans | internal/signature/hmac.go:89-115 | every printed text is accepted by both parsers and reads back as its own values |
| ImageOptions.FormatsAreNamed | internal/image/options.go:62-78 | each format has its one extension, JPEG two, in any case and with or without a dot; everything else is no output format |
| ImageOptions.PreimageInjective | internal/handler/image.go:283-288 | the hashed text is equal if and only if source, width, height, effective quality and format are, for arbitrary source strings |
| Signing.SignDomain | internal/signature/hmac.go:202-213 | the bytes written are the domain followed by every part behind a NUL byte |
| Signing.EncryptedImagesShare | internal/signature/hmac.go:215-227 | two encrypted messages have the same bytes if and only if their options agree and their tokens and formats agree when joined by a NUL |
| Signing.EncryptedImageUniqueIff | internal/signature/hmac.go:176-213 | a message is the only one with its bytes if and only if neither its token nor its format holds a NUL |
| Signing.SupportedFormatIsWellFormed | internal/signature/hmac.go:176-198 | a supported output format holds no NUL, so the message is told apart from all others of supported formats |
| Signing.SignedTextIsUnambiguous | internal/signature/hmac.go:18-25 | over all five kinds of URL two signed texts are equal if and only if the messages are, or one is an option-less image and the other the original of the same path |
| Signing.PlainMessageIsUnambiguous | internal/signature/hmac.go:120-165 | the plaintext image message determines canonical options, decoded source key and format |
| Signing.FetchedKey | internal/handler/image.go:85-132 | the fetched key is the signed key, with a slash in front exactly when the request kept one |
| Signing.SameSignatureSameTarget | internal/handler/image.go:94-140 | requests with one signature have the same options and format, and the same object and cache key if and only if both or neither kept a leading slash |
| Signing.KeptSlashSplitsObjects | internal/handler/image.go:85-132 | `/a.png` and `//a.png` have one signature and fetch the objects `a` and `/a` |
| Signing.UnescapeRestores | internal/handler/image.go:129-132 | percent-decoding undoes the encoding of every byte string, with capital or small digits |
| Signing.EscapedKeyIsFetched | internal/handler/image.go:88-132 | a path with an encoded key and `.png`, without options, fetches exactly that key as PNG, and `/`, key and `.png` are what its signature covers |
| Signing.OnlyFormatsResolve | internal/handler/image.go:96-109 | an accepted request has one of the six known extensions and the options read from its option text |
| Signing.FormatOfNormal | internal/signature/hmac.go:134-148 | the signed extension determines the output format |
| LruSpec.TrimIsLongestPrefix | internal/cache/lru.go:121-132 | evicting leaves the longest prefix, most recent first, that fits |
| LruSpec.OperationsKeepCache | internal/cache/lru.go:37-102 | every operation keeps distinct keys and a total within the limit |
| LruSpec.SetMeaning | internal/cache/lru.go:55-86 | a fitting item is stored in front and never evicted by its own Set; an oversized one changes nothing, an old value included |
| LruSpec.FoundAgain | internal/cache/lru.go:37-86 | what was stored and fits, or was found, is the most recent entry and is found again |
| LruSpec.FindWithout | internal/cache/lru.go:89-101 | a deleted key is gone and every other key keeps its value |
| LruSpec.AnyUseIsCache | internal/cache/lru.go:37-140 | after any Get, Set and Delete calls keys are distinct and the total is within the limit |
| LruSpec.StackInclusion | internal/handler/image.go:142-159 | over every trace of filled lookups and deletes the smaller cache is a prefix of the larger one, if no item lies between the limits |
| LruSpec.StraddlingBreaksInclusion | internal/cache/lru.go:62-65 | a trace that breaks inclusion for an item between the limits, next to one that fits |
| LruSpec.StackInclusionIff | internal/cache/lru.go:37-86 | inclusion holds for all traces if and only if no item lies between the limits, or nothing fits the smaller cache |
| LruSpec.HitsOnlyGrow | internal/handler/image.go:142-159 | raising the limit never turns a memory hit into a miss |
| Lru.List.Remove | internal/cache/lru.go:134-139 | unlinking an element of the doubly linked list removes exactly its position from the order |
| Lru.List.PushFront | internal/cache/lru.go:77-79 | a new element comes first and the rest keeps its order |
| Lru.List.MoveToFront | internal/cache/lru.go:46-48 | an element comes first and the rest keeps its order |
| Lru.LRU.RemoveElement | internal/cache/lru.go:134-139 | drops one entry from list, map and byte counter together |
| Lru.LRU.Evict | internal/cache/lru.go:121-132 | the loop computes `Trim`; its exit on a missing tail is never taken |
| Lru.LRU.Get | internal/cache/lru.go:37-49 | returns the stored bytes and moves the entry to the front |
| Lru.LRU.Set | internal/cache/lru.go:55-86 | the linked structure after Set is the list specification's `Set` |
| Lru.LRU.Delete | internal/cache/lru.go:89-101 | reports whether the key was present and removes it |
| Lru.LRU.Size | internal/cache/lru.go:112-117 | the counter is the sum of the stored lengths |
| Media.MediaKeyUnderOwnPrefix | internal/queue/handlers/deps.go:49-73 | every media key lies under the prefix that a cleanup of its hash lists |
| Media.KeyOfCover | internal/queue/handlers/deps.go:57-64 | the key of a cover and the prefix of its cleanup, written out |
| Media.PrefixesOverlapIff | internal/cleanup/cleaner.go:343-349 | for hashes of any length a prefix reaches another hash's keys if and only if a slash nests one below the other (between a hash of one byte and a longer one: only if both start in slashes) |
| Media.SlashFreeHashesAreApart | internal/cleanup/cleaner.go:343-349 | hashes without a slash never reach each other's objects |
| Cleanup.Cleaner.QueueNames | internal/cleanup/cleaner.go:207-227 | the loop computes the specification `QueueNames`; without a queue service the known queues |
| TaskQueue.QueueNamesMeans | internal/cleanup/cleaner.go:207-227 | each queue once: the three known ones always, and every named one the service lists when it can be asked |
| Cleanup.Cleaner.Sweep | internal/cleanup/cleaner.go:239-256 | the loop over the queues ends, call by call, as the specification `Sweep` says |
| TaskQueue.SweepOfSole | internal/cleanup/cleaner.go:239-256 | what a look into all queues does to the only entry of an id in closed form: which call reads it, which call deletes it, and what is reported |
| Cleanup.Cleaner.CancelTask | internal/cleanup/cleaner.go:229-267 | ends as the specification `Cancel` says, under any faults: success is wrong if and only if the entry is overlooked, which is settled before the call; right when reads work; without faults if and only if the entry stops within five attempts |
| TaskQueue.CancelOfSole | internal/cleanup/cleaner.go:234-266 | the cancellation of an entry ends as its fate says: overlooked, removed or given up |
| TaskQueue.WrongSuccessIff | internal/cleanup/cleaner.go:242-260 | under any faults success with the entry still there if and only if the cancellation overlooks it |
| TaskQueue.ReadsFineIsRight | internal/cleanup/cleaner.go:242-260 | when reads work, whatever else fails, success means the entry is gone |
| TaskQueue.QuietCancel | internal/cleanup/cleaner.go:229-267 | without faults success if and only if the entry stops within five attempts, and then it is gone |
| TaskQueue.OutageCancel | internal/cleanup/cleaner.go:242-260 | while the queue service is down always success, and the entry stays |
| Cleanup.Cleaner.CancelTasks | internal/cleanup/cleaner.go:186-205 | ends as the specification `CancelStage` says, under any faults |
| TaskQueue.JobsLeftIff | internal/cleanup/cleaner.go:194-202 | under any faults, when all jobs were gone through an entry is left if and only if it was overlooked where its cancellation started |
| TaskQueue.JobsWithWorkingReads | internal/cleanup/cleaner.go:194-202 | when reads work, whatever else fails, no entry is left when all jobs were gone through |
| TaskQueue.StopsAtFailure | internal/cleanup/cleaner.go:194-204 | a job that cannot be cancelled is the last one touched |
| TaskQueue.QuietJobs | internal/cleanup/cleaner.go:194-202 | without faults all jobs are gone through if and only if all entries stop in time |
| TaskQueue.StageMeans | internal/cleanup/cleaner.go:186-205 | these facts for the whole stage, with its two listings and without a queue service |
| TaskQueue.StageByStatus | internal/cleanup/cleaner.go:186-205 | by status: with working reads no job that is neither completed nor canceled keeps an entry, and entries of other ids are as they were |
| Cleanup.Cleaner.DeletePrefix | internal/cleanup/cleaner.go:327-341 | success means nothing is left under the prefix; every intermediate state is safe |
| Cleanup.Cleaner.DeleteMediaObjects | internal/cleanup/cleaner.go:269-280 | done means nothing is left under the three prefixes |
| Cleanup.Cleaner.DropEntry | internal/cleanup/cleaner.go:290-301 | a dropped entry has neither a memory item nor an object left |
| Cleanup.Cleaner.DeleteTrackedImageCaches | internal/cleanup/cleaner.go:282-309 | done means no tracked object or memory item is left; rows go only after what they track |
| Cleanup.Cleaner.Cleanup | internal/cleanup/cleaner.go:162-184 | under any faults every state on the way is recorded and safe, the entries left are those of `CancelStage`, confirmation means that all owned objects and memory items are gone and exactly the overlooked entries are left, and without it no job row or key was touched; when reads work a confirmation leaves no entry of a job of the hash whose status is neither completed nor canceled, and entries of ids with completed or canceled jobs only are never touched; a fault-free run confirms if and only if all entries stop in time, and then every stage is done |
| Cleanup.Cleaner.CleanupRepeatedly | internal/cleanup/cleaner.go:162-184 | after any number of faulty runs a confirmation leaves no entry of a job the first run could see when reads work; and once the faults have ended one more run confirms without a warning and leaves no object, memory item, row, key or job, if the entries could be cancelled in time at the start |
| Cleanup.UnreadableTaskSurvives | internal/cleanup/cleaner.go:242-245 | a run with only the queue service down: the cleanup of a running job confirms, its job row is gone and its queue entry is still there |
| Cleanup.QueuedTaskIsDeleted | internal/cleanup/cleaner.go:194-202 | a run without faults: the entry of a queued job is deleted before its row |
| TaskQueue.EasingKeepsJobs | internal/cleanup/cleaner.go:229-267 | what could be cancelled in time before an interrupted cleanup still can be after it, and what is gone stays gone |
| Cleanup.SafeAfterRows | internal/cleanup/cleaner.go:303-308 | deleting the rows is safe once nothing they track is cached |
| Cleanup.GoneReachesBack | internal/cleanup/cleaner.go:269-309 | whatever an interrupted run leaves behind is still in reach of the next run |
| Cleanup.SafeTwice | internal/cleanup/cleaner.go:162-184 | a cleanup of what an interrupted cleanup left is as safe as one cleanup |
| Cleanup.RetriesConverge | internal/cleanup/cleaner.go:79-83 | after any number of interrupted runs one confirmed run leaves nothing of what the first run could see |
| ImageCache.Upsert | internal/db/dbq/keys.sql.go:83-89 | one row per hash and storage key: the new row replaces the old one and no other row changes |
| ImageCache.ImageHandler.TrackCacheEntry | internal/handler/image.go:306-321 | tracks the entry under the content hash of its path, if it has one |
| ImageCache.ImageHandler.Handle | internal/handler/image.go:139-251 | memory, then storage, then rendering at the width, height, format and quality asked for (by default 80, 50 for AVIF, 0 for PNG and GIF); what is served and fits is the most recent memory entry and is tracked, and only a fresh rendering starts a write-back |
| ImageCache.ServedAnswers | internal/handler/image.go:139-251 | the same of the specification that runs are made of |
| ImageCache.DirectIsAsked | internal/image/options.go:155-161 | the direct rendering uses the quality asked for, or the default of its format |
| ImageCache.QualitiesAreApart | internal/handler/image.go:283-288 | requests that differ in two given qualities have different cache texts |
| ImageCache.MarkedSegmentIsFound | internal/handler/image.go:294-304 | the first path segment of 64 hexadecimal digits, plain or behind a SHA-256 mark in either case, is the content hash, in lower case |
| ImageCache.SameKeySameRendering | internal/handler/image.go:283-292 | requests that share a cache key name one source and format and render alike |
| ImageCache.ServedIsDirect | internal/handler/image.go:139-251 | in a coherent state the body is the direct rendering, and the state stays coherent |
| ImageCache.RunServesDirectRenderings | internal/handler/image.go:139-251 | in every run of requests, evictions, write-backs that land or are lost, and interrupted cleanups, every cached entry and every body is the direct rendering |
| ImageCache.StepKeepsCovered | internal/handler/image.go:296-321 | every step with working upserts keeps each cached rendering covered by an index row or listed as escaped |
| ImageCache.CleanupIsFinalIff | internal/handler/image.go:239-246 | after a cleanup took the rows of its hash, no continuation leaves an object of the hash out of reach if and only if no write-back of the hash was in flight |
| ImageCache.CleanupLeavesOnlyEscaped | internal/cleanup/cleaner.go:282-309 | a confirmed cleanup leaves no memory item of the hash, and in storage only what escaped |
| ImageCache.CleanupIsComplete | internal/cleanup/cleaner.go:282-309 | in such runs a confirmed cleanup leaves no rendering of the hash's sources in memory, in storage or in flight |
| ImageCache.LateWriteBackEscapes | internal/handler/image.go:239-246 | in every state, a write-back of the hash that lands after a cleanup took the rows leaves an object no further cleanup sees |
| ImageCache.EscapeFromEmpty | internal/handler/image.go:239-246 | such a run from the empty state, with the handler's own write-back |
| Fit.FallbackUnreachable | internal/video/processor.go:331-350 | for sides of at least two pixels neither branch for a derived side beyond its limit is taken |
| Fit.FitIsTight | internal/video/processor.go:322-378 | fitted sides are even, at least two and inside box and source, and the derived side is within one pixel of the exact aspect value whenever that is at least one |
| Fit.FitStaysInsideIff | internal/video/processor.go:352-361 | the frame stays inside box and source if and only if no side of them is one pixel |
| Fit.OnePixelGrows | internal/video/processor.go:352-361 | a source of a single pixel becomes two by two |
| Fit.OneSideIsExact | internal/video/processor.go:331-350 | an offered even box is filled exactly on one side, which does not exceed the source |
| Fit.FitIsMonotone | internal/video/processor.go:300-350 | of two nested offered boxes the smaller one gets no wider and no higher frame, across both aspect branches |
| Transcode.SelectVariantsForCodec | internal/video/processor.go:300-320 | keeps the fitted rungs that the short edge allows, or the fitted last template when none is |
| Transcode.ResolvedRungs | internal/video/processor.go:300-320 | of a codec exactly the templates whose short edge is at most the source's are resolved, once each and in order, with their label, CRF and audio rate; if there are some but none fits, exactly the last one |
| Transcode.ResolveTranscodeVariants | internal/video/processor.go:276-298 | the map-and-order grouping computes the concatenation of the selections in order of first appearance; without a known source size the templates stay as they are |
| Transcode.ResolvingGroupsByCodec | internal/video/processor.go:283-297 | what is resolved of a codec depends on that codec's templates alone, in their order, and is never empty when there are any |
| Transcode.CodecsStayInOrder | internal/video/processor.go:283-297 | the resolved variants come codec by codec, in the order in which the codecs first appear |
| Transcode.ResolvingResizes | internal/video/processor.go:303-319 | a resolved variant keeps label, codec, CRF and audio rate of its template |
| Transcode.ResolvedLabelsAreUnique | internal/video/processor.go:276-320 | distinct template labels stay distinct |
| Transcode.VariantsForCodec | internal/video/transcode.go:139-148 | the variants of a codec in order |
| Transcode.EncodeVideos | internal/video/transcode.go:75-87 | fails if and only if a codec that has variants cannot be encoded, and else gives the encoded files by label |
| Transcode.PackageTracks | internal/video/transcode.go:269-275 | succeeds if and only if every label has an encoded file, and takes each variant's own file |
| Transcode.PackagingIsComplete | internal/video/transcode.go:269-275 | for distinct labels the missing-track error is unreachable if and only if every template uses one of the two encoded codecs, and each variant is packaged from its own encoding |
| Transcode.ThirdCodecIsMissed | internal/video/transcode.go:75-87 | a single template of a third codec is resolved and never encoded, for every source |
| Ladder.DefaultVariants | internal/video/processor.go:83-95 | the interleaved ladder, whose part of each codec is that codec's rungs in order |
| Ladder.RungLabelsDiffer | internal/video/processor.go:66-68 | labels determine rung and codec |
| Ladder.InterleavedLabels | internal/video/processor.go:83-95 | the labels of a ladder with distinct rungs are distinct |
| Ladder.BandwidthOfCodecs | internal/video/transcode.go:346-370 | the estimate never falls with the height, and AV1 gets three fifths of what other codecs get at the same height |
| Ladder.LadderDescends | internal/video/transcode.go:348-370 | for every source the resolved rungs of a codec with nested even boxes never grow in width, height or bandwidth |
| Ladder.DefaultLadder | internal/video/processor.go:56-95 | for every source the default ladder gives both codecs rungs that pair up, descend, and are packaged from their own encodings |
| Ladder.DefaultRungs | internal/video/processor.go:56-95 | label, frame, CRF and audio rate of all ten default templates |
| Ladder.SmallSources | internal/video/processor.go:316-319 | a source with a short edge below 240 gets `r240_av1` with CRF 38 and `r240_h264` with CRF 28, both with 32k audio, and nothing else |
| Ladder.BandwidthTable | internal/video/transcode.go:348-370 | the bandwidth by codec and height |
| OptionMaps.AudioRoundTrip | internal/jsonx/codec.go:14-45 | audio options written with zero values left out decode to themselves |
| OptionMaps.FullRoundTrip | internal/jsonx/codec.go:14-45 | full options do, absent and empty stages kept apart |
| OptionMaps.AudioIsRead | internal/queue/tasks.go:66-74 | which name each audio option is read from, and what a missing one reads as |
| OptionMaps.VideoPartsAreRead | internal/queue/tasks.go:46-63 | the same for covers, previews and transcodes |
| OptionMaps.UnknownNamesAreRefused | internal/jsonx/codec.go:14-30 | an unknown name is refused in the options of every structured type |
| OptionMaps.ZerosAreLeftOut | internal/queue/tasks.go:46-81 | options that are all zero are written as an empty map |
| Requests.RoundTrip | internal/jsonx/codec.go:14-45 | so do the options of every job type |
| Requests.CanonicalizeAudioTranscodeOptions | internal/job/request/request.go:740-762 | the step-by-step updates compute `Normal`: an output is on if and only if it or nothing was asked for, `encrypt` is kept, positive bins and a non-blank bit rate of an output that is on are kept, others become 2048 and "320k", and those of an output that is off are cleared |
| Requests.HandlerCanonicalizeAudio | internal/handler/job.go:391-418 | the handler's own updates keep the same of what was asked for, and of streaming without downloads where encryption was asked for |
| Text.BlankIff | internal/job/request/request.go:756-758 | a seven-bit bit rate counts as missing if and only if it holds nothing but white space |
| Requests.CanonicalizeVideoFullOptions | internal/job/request/request.go:725-738 | stages that are present but all zero become absent, and every other stage is kept |
| Requests.NormalShape | internal/job/request/request.go:740-762 | the canonical form is stable, asks for something, and holds exactly the parameters of what it asks for |
| Requests.CanonicalisersAgreeIff | internal/handler/job.go:391-418 | the handler's canonicaliser is the identity on canonical options if and only if their encryption is allowed |
| Requests.EncryptionAloneDisagrees | internal/handler/job.go:396-400 | asking for encryption alone asks for all outputs, which the handler would cut down again |
| Requests.CanonicalParses | internal/job/request/request.go:185-249 | canonical options decode to the canonical record |
| Requests.CanonicalKeepsAsked | internal/job/request/request.go:185-249 | the canonical form of an audio request differs in its options only, and these keep what was asked for |
| Requests.CanonicalizeIdempotent | internal/job/request/request.go:185-249 | canonicalising is idempotent for every request |
| Requests.ValidRequestsCanonicalize | internal/job/request/request.go:164-183 | a valid request has a canonical form, and it is valid |
| Requests.RefusedIf | internal/job/request/request.go:164-183 | an unknown type, an empty hash or source, a refused callback, options that do not decode and malformed thumbnail options are refused |
| Requests.ValidIf | internal/job/request/request.go:649-691 | beyond that video requests are valid, and audio requests if and only if encryption comes with streaming and without downloads |
| Requests.SameFingerprintIff | internal/handler/job.go:420-437 | requests share a fingerprint if and only if type, hash, source and canonical options agree |
| Requests.AudioFingerprintIff | internal/handler/job.go:420-437 | audio requests do if and only if they want the same outputs of one source with the same encryption, bins and bit rate, defaults filled in |
| Requests.BitratesAreApart | internal/job/request/request.go:756-758 | 128k and 320k requests keep their bit rates and have different fingerprints |
| Requests.PayloadIsFingerprinted | internal/handler/job.go:648-775 | the queued options equal the fingerprinted ones if and only if validation accepts the request's options |
| AudioJobs.QueuedOptions | internal/handler/job.go:669-694 | the job queued for a valid audio request carries the canonical options that were fingerprinted |
| AudioJobs.FingerprintMeansRuns | internal/handler/job.go:420-437 | two valid audio requests share a fingerprint if and only if they are for one object and their jobs write the same objects with the same contents, however the steps come out |
| AudioJobs.RetryRestores | internal/handler/job.go:514-562 | a retry of a failed audio job queues the same payload, and its success leaves exactly the bucket one success would have left |
| Pipelines.ApplyStructuredAudioDownload | internal/job/request/request.go:445-488 | profile by profile, a download is refused, or adds its format and bit rate to the options and nothing else |
| Pipelines.BuildStructuredAudioOptions | internal/job/request/request.go:352-392 | success if and only if every stage and download is acceptable, and then the map decodes to the options the pipeline stands for |
| Pipelines.AskedAudioMeans | internal/job/request/request.go:352-392 | the options a pipeline stands for, stage by stage, and the stages that are refused |
| Pipelines.LastBitrateMeans | internal/job/request/request.go:385-389 | the bit rate is that of the last download that sets one |
| Pipelines.BuiltAudioIsValidIff | internal/job/request/request.go:656-667 | built options fail validation if and only if encryption meets a download |
| Pipelines.BuiltVideoIff | internal/job/request/request.go:490-544 | a pipeline is accepted if and only if it is the default one, or holds nothing unsupported and some job type runs exactly the stages it wants |
| Pipelines.BuiltVideoRunsWhatIsWanted | internal/job/request/request.go:490-544 | the built job type runs exactly the enabled stages, and its options carry their parameters |
| Pipelines.DefaultFullFingerprint | internal/job/request/request.go:546-559 | an explicit full pipeline shares the fingerprint of the default one if and only if all its parameters are zero |
| VideoFlow.DedupeStrings | internal/queue/handlers/full.go:393-410 | the seen-set loop computes `Dedupe` |
| VideoFlow.DedupeMeans | internal/queue/handlers/full.go:393-410 | each item that is not empty is kept once and nothing is added |
| VideoFlow.MakeRetryPlan | internal/queue/handlers/full.go:337-345 | the plan that is set, without repetitions |
| VideoFlow.FailedPartsPlan | internal/queue/handlers/full.go:347-369 | the lists for failed covers and previews are exactly what is not ready |
| VideoFlow.CoverTimesAgreeIff | internal/queue/handlers/cover.go:56-60 | cover job and full job extract the same frame if and only if the time is not negative |
| VideoFlow.ClipsAgreeIff | internal/queue/handlers/preview.go:56-63 | preview job and full job cut the same clip if and only if a start other than zero is given |
| VideoFlow.GeneratedMeans | internal/video/preview.go:33-48 | a generated clip keeps every parameter given and has 480 pixels, 10 frames a second, WebP and 3 seconds for the others, with no default for the start |
| VideoFlow.Worker.UploadHLSDir | internal/queue/handlers/deps.go:218-261 | uploads in walking order and stops at the first failure, leaving what came before it |
| VideoFlow.Worker.HandleVideoCover | internal/queue/handlers/cover.go:29-102 | writes the frame under the cover key, or nothing |
| VideoFlow.Worker.HandleVideoPreview | internal/queue/handlers/preview.go:29-115 | writes the clip under the key of its format, or nothing |
| VideoFlow.Worker.HandleVideoTranscode | internal/queue/handlers/transcode.go:36-155 | writes the packaged files, up to the first that fails |
| VideoFlow.Worker.HandleVideoFull | internal/queue/handlers/full.go:49-315 | stages, artifacts, plan and written objects for every pattern of step outcomes; each stage is ready if and only if all of its steps succeeded and otherwise names one that did not, what is recorded is in the bucket with the content asked for, and no retry is offered if and only if every step the run takes succeeded, in which case everything has been written |
| VideoFlow.ResultsAreHonest | internal/queue/handlers/full.go:72-315 | the same of the specification that retries are stated about |
| VideoFlow.FailedStreamUpload | internal/queue/handlers/full.go:298-303 | a stream file that cannot be uploaded fails the stage with `upload_failed`, records no stream and plans a `video:transcode` job |
| Retry.FinishedRun | internal/queue/handlers/full.go:72-313 | no stage stays pending, an artifact is recorded if and only if its stage is ready, and a plan is offered if and only if a stage failed |
| Retry.PlanListsWhatIsMissing | internal/queue/handlers/full.go:347-369 | once the source is there the plan lists a stage, and its job, if and only if the stage is not ready |
| Retry.BuildRetryRequests | internal/handler/job.go:514-552 | a job is made again as it is, unless a full run left a plan: then the planned types are made, for the same source and callback, with the plan's strategy; undecodable options and an empty plan are refused |
| Retry.SameTypeRetryKeepsFingerprint | internal/handler/job.go:514-606 | a retry of the failed job's type, rebuilt from stored options and canonicalised again, has the original fingerprint |
| Retry.FullSuccess | internal/queue/handlers/full.go:214-313 | when every step succeeds the run writes everything and offers no retry |
| Retry.RetryRestoresIff | internal/handler/job.go:514-606 | a failed full job can be retried, and completing the retried jobs leaves the bucket as one full success would if and only if retried covers have no negative time and retried previews a start other than zero |
| Retry.DefaultPreviewRetryDiffers | internal/queue/handlers/preview.go:56-63 | the default pipeline with a failed preview: completing the retry never restores what a full success leaves |
| Retry.RunsWriteUnderTheirHash | internal/queue/handlers/deps.go:58-64 | everything a full run writes is reached by the cleanup of its hash |
| AudioFlow.ProcessResult.constructor | internal/audio/result.go:95-105 | enabled stages start pending and disabled ones skipped |
| AudioFlow.ProcessResult.SkipPendingStages | internal/queue/handlers/audio.go:288-304 | the loop over the stages replaces exactly the pending ones |
| AudioFlow.ProcessResult.Fail | internal/queue/handlers/audio.go:306-311 | a failing stage ends the run: earlier stages ready, later ones skipped, the summary naming it |
| AudioFlow.Worker.UploadHLSDir | internal/queue/handlers/audio.go:349-388 | uploads in walking order and stops at the first failure |
| AudioFlow.Worker.HandleAudioTranscode | internal/queue/handlers/audio.go:25-286 | failure, stages, artifacts, downloads and the written objects with their contents, for every pattern of step outcomes; the run is complete if and only if every step it takes succeeded, it then records exactly the downloads asked for and has written everything, and otherwise it blames a step that failed |
| AudioFlow.FailsIff | internal/queue/handlers/audio.go:50-286 | the same of the specification: a run fails if and only if a step it takes does, and names such a step |
| AudioFlow.FinishedRun | internal/queue/handlers/audio.go:50-286 | no stage stays pending; a failed run has exactly one failed stage, the one its summary names; in a complete run exactly the enabled stages are ready |
| AudioFlow.FailuresCutTheRun | internal/queue/handlers/audio.go:54-190 | of the enabled stages exactly those before the failure are ready and exactly those after it skipped |
| AudioFlow.SkippedStagesSayWhy | internal/queue/handlers/audio.go:54-190 | a skipped stage was not asked for, or names the earlier stage whose failure kept it from running |
| AudioFlow.DisabledStageFailsIff | internal/queue/handlers/audio.go:214-219 | a disabled stage fails if and only if the download directory cannot be made for a job without downloads |
| AudioFlow.RecordsAreUploaded | internal/queue/handlers/audio.go:88-281 | every recorded artifact has been uploaded |
| AudioFlow.RunsWriteUnderTheirHash | internal/queue/handlers/deps.go:67-73 | everything an audio run writes is reached by the cleanup of its hash |
| AudioFlow.FullSuccess | internal/queue/handlers/audio.go:50-286 | when every step the job takes succeeds nothing fails, the run writes exactly the outputs that were asked for and records every download |
| AudioFlow.RerunRestores | internal/queue/handlers/audio.go:50-286 | a run writes nothing outside what a full success of the same job writes, so a rerun leaves exactly the bucket of one success |
| RateLimit.Limiter.Handle | internal/server/middleware/ratelimit.go:15-50 | counter, expiry and decision of one request, letting it pass on every fault |
| RateLimit.RedisKeyInjective | internal/server/middleware/ratelimit.go:32-33 | keys and buckets never share a counter, whatever the key holds |
| RateLimit.LimitersAreApart | internal/server/middleware/ratelimit.go:32-33 | nor do limiters whose prefixes hold no colon |
| RateLimit.DeniedOnlyAfterLimit | internal/server/middleware/ratelimit.go:35-45 | in every trace with any faults a request is denied only after as many of its key and bucket as the limit allows |
| RateLimit.CounterIsExact | internal/server/middleware/ratelimit.go:35-37 | whatever is lost, the counter of a live bucket is the number of its requests that reached Redis, heard or not |
| RateLimit.FaultsPass | internal/server/middleware/ratelimit.go:22-39 | a request without a key, or one that meets a fault, is accepted in every trace |
| RateLimit.DeniedIff | internal/server/middleware/ratelimit.go:35-45 | with a window of a second or more a request is denied if and only if it is answered and its bucket was used up by requests that reached Redis, in every trace with any faults |
| RateLimit.BucketsAcceptTheirFirstIff | internal/server/middleware/ratelimit.go:27-45 | every bucket accepts exactly its first requests in every trace if and only if the window is a second or more, or the limit accepts nothing |
| RateLimit.IntervalOfBucket | internal/server/middleware/ratelimit.go:35-45 | during one window a bucket accepts at most the limit, also when its counter is dropped later |
| RateLimit.WindowAcceptsAtMostTwiceIff | internal/server/middleware/ratelimit.go:27-45 | every interval of one window sees at most twice the limit accepted for a key, in every trace, if and only if the window is at most a nanosecond longer than its bucket or the limit accepts nothing |
| RateLimit.ThriceIsReached | internal/server/middleware/ratelimit.go:27-32 | every longer window has a trace with three times the limit |
| RateLimit.OneAndAHalfSeconds | internal/server/middleware/ratelimit.go:27-32 | three requests accepted within a window of one and a half seconds and a limit of one |
| RateLimit.TwiceIsReached | internal/server/middleware/ratelimit.go:32 | a trace that reaches twice the limit within two nanoseconds |
| Waveform.GenerateWaveform | internal/audio/waveform.go:18-61 | the in-place loop leaves in each of the bins (2048 by default) the peak of its part: at least every sample of the part with either sign, and zero or one of them |
| Waveform.ClampNeverFires | internal/audio/waveform.go:51-54 | the bin of a sample always exists |
| Waveform.PartsPartition | internal/audio/waveform.go:51 | the parts cover the samples in order: a sample lies in the part of its bin and in no other |
| Waveform.PartsAreEven | internal/audio/waveform.go:51 | every part has the rounded-down or rounded-up share of the samples |
| Waveform.MaximumIsKept | internal/audio/waveform.go:46-58 | the largest peak is the largest amplitude of all samples |
| Waveform.PeakIsMaximum | internal/audio/waveform.go:55-57 | a peak bounds its samples and is zero or one of them |
| LineScan.ScanFFmpegLines | internal/video/progress.go:74-90 | the early-exit loop computes the split of a buffer |
| LineScan.SplitIsStable | internal/video/progress.go:74-90 | a line found does not change when more is read, a call with a line makes progress, and at the end only an empty rest yields none |
| LineScan.Scanner.Scan | internal/video/progress.go:26-29 | hands out the first line of all that remains, however the stream is cut into reads, and gives up exactly on a line that fills the buffer of 64 KB, unless the stream ends with it and the reader says so together with the last bytes |
| LineScan.ParseProgress | internal/video/progress.go:21-60 | the reports depend on the whole stream alone, and so does the error: a read error, or a line too long |
| LineScan.ShortLinesMean | internal/video/progress.go:26-29 | the scanned lines are all lines before the first one that does not fit, and so all lines if there is none |
| LineScan.ReportsAreShares | internal/video/progress.go:48-53 | every report lies between zero and one |
| LineScan.TimeIsReported | internal/video/progress.go:34-53 | the first time HH:MM:SS.cc of a line is reported as 3600 times the hours, 60 times the minutes, the seconds and a hundredth of the last number, over the total and at most one |
| LineScan.WeaveRestores | internal/video/progress.go:79-83 | lines and breaks rebuild the stream |
| LineScan.LinesAreSplit | internal/video/progress.go:72-90 | the lines are those of splitting the whole stream at every break, without an empty last one |

## Left out

- AES-GCM, key wrapping, base64, bearer tokens, webhooks, tracing, metrics, logging, configuration and HTTP routing: plumbing or thin wrappers over libraries.
- Foreign programs and services (S3, PostgreSQL, Redis, asynq, FFmpeg, Shaka Packager, libvips): they are maps, outcomes and faults here.
- Hash collisions: SHA-256 and HMAC are taken to be injective.
- Floating point: rounding, NaN samples and the two-digit formatting of times are not modelled; aspect ratios, amplitudes and times are exact.
- Machine integers: sizes, products such as `i * bins` and durations are unbounded; only `strconv.Atoi` has its 64-bit range, and the truncating division of durations is written out.
- `strings.ToLower` beyond ASCII: only ASCII letters are lowered (the content-hash pattern also folds the long s).
- Case-insensitive JSON field names and duplicate fields: options use exact names, as the structured builders write them.
- `structuredImage` requests and thumbnail payloads: thumbnail options pass through unchanged and are only validated.
- `url.Parse` on callback addresses: whether one is acceptable is given.
- Error texts: only which error class or code arises is kept.
- Concurrency within one server: requests are atomic steps apart from their asynchronous write-back; the two singleflight groups are not modelled.
- Cleanup in the middle of a request, new cache rows between the runs of a retried cleanup, and the memory caches of other server processes: the code gives no guarantee there.
- Queue entries that change during a cleanup other than by its cancel signals.
- A cleaner without a memory cache.
- TaskQueue.WrongSuccessIff: takes ids that at most one queue entry has; a job is put into one queue under an id of its own.
- LruSpec.StackInclusion: covers lookups that fill the cache on a miss; a lookup whose rendering fails fills nothing and is not an event of the trace.
- Retry.RetryRestoresIff: about retried jobs that succeed, and packaged files that do not take the names of cover and preview; one job per fingerprint and automatic re-deliveries are not guaranteed by the code.
- LineScan.Scanner.Scan: no limit on consecutive empty reads.
- RateLimit.Limiter.Handle: one clock for server and Redis.
- Encoding and packaging arguments, shared filters, audio descriptors and the playlists inside a package.
- The database rows of jobs beyond those the cleanup and a retry look at, including their progress and callbacks.
