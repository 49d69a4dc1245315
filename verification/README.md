# Street litter inspection app — a Dafny model of its core

The application is a Next.js app for street-litter inspections. The camera runs an
object detector and publishes the bottles, cups and utensils it sees. A capture
blurs faces in the snapshot, compresses it and tallies the published detections
into a single-slot draft. On the review screen the counts and the basket fill
level can be adjusted. The draft is then validated and saved, and the saved
inspections can be exported as CSV.

This project models that logic as pure functions over immutable datatypes, with
one Dafny module per source file:

| module | file | source |
|---|---|---|
| `Wrappers`, `Strings` | wrappers.dfy, strings.dfy | `Option`/`Result`/`Outcome`; the runtime's `includes`, `startsWith` and `String(n)` |
| `Constants` | constants.dfy | src/lib/constants.ts |
| `Math` | math.dfy | src/lib/math.ts |
| `Store` | store.dfy | src/lib/store.ts (`useDraft`) |
| `CounterPills`, `FillGauge`, `ReviewCard` | counter_pills.dfy, fill_gauge.dfy, review_card.dfy | the state updates of the three review components |
| `Schemas` | schemas.dfy | src/lib/schemas.ts (`InspectionSchema` as a validator) |
| `Csv` | csv.dfy | src/lib/csv.ts, with an independent reader `ParseCsv` |
| `Loaders`, `TfInit`, `Detection` | loaders.dfy, tf_init.dfy, detection.dfy | src/lib/ai/loaders.ts, src/lib/tfInit.ts, src/lib/detection.ts |
| `ImageOps`, `Faces` | image.dfy, faces.dfy | src/lib/image.ts, src/lib/faces.ts |
| `CameraSurface` | camera_surface.dfy | src/components/CameraSurface.tsx |
| `Logger`, `TensorMemory` | logger.dfy, memory.dfy | src/lib/utils/logger.ts, src/lib/utils/dev/memory.ts |

Conventions:

- **Library calls are parameters.** This covers the ML libraries
  (`coco.load`, `blazeface.load`, `model.detect`, `estimateFaces`,
  `tf.setBackend`/`tf.ready`, the warm-up `tf.tidy`), the camera, `drawImage`,
  the `blur(20px)` filter and `toDataURL`. A call that can fail is a
  `Result`/`Outcome` value; a pixel source or encoder is a total function.
- **Fresh values are parameters.** `uuid()`, `new Date()` and the clock stamp
  on log entries are passed in.
- **Module-level caches are values.** A module variable that holds a loaded
  model (`model`, `cocoModel`, `blazefaceModel`) is an `Option<Handle>`,
  threaded through the calls.
- **Log calls are data.** The `log.*` calls of backend start-up, model
  loading, detection, the camera start-up and capture are returned, in order,
  as the `Logger.LogEntry` values they would append, ready for
  `Logger.AppendAll`. The calls that are not are listed under "## Left out".
- **Canvases are values.** A canvas is an abstract pixel grid, and a 2D
  context is a current style, a stack of saved styles and the list of drawing
  operations issued.
- **Numbers.** Counts, fill percentage and liters are `int`: the slider
  supplies integers through `parseInt`. Detection boxes and scores are `real`.

Behaviour of the code worth noting:

- A failed inference resolves to `[]` once the model is loaded. The loop
  publishes that empty batch, so a failure *clears* the published detections
  rather than keeping them (`CameraSurface.FailedInferenceClearsBatch`).
- The detection loop has no in-flight guard: a new inference starts on every
  8th ready frame, whether or not the previous one has settled.
- Capture has no in-progress guard.
- A face-model failure (load or `estimateFaces`) is not turned into a
  pass-through of the unblurred snapshot. It aborts the capture: the user is
  alerted and the draft is untouched.
- The backend warm-up runs once, after a backend is selected, not once per
  attempt. A failing warm-up fails `initTf` without trying the other backend.

## Model

| member | source | states |
|---|---|---|
| Constants.IsDetectClass | src/lib/constants.ts:2 | a label is a detect class exactly when it is one of bottle, cup, fork, knife, spoon |
| Constants.FindById | src/lib/constants.ts:108-110 | `find` on the id: none exactly when no element has the id, otherwise the element at the first index carrying it |
| Constants.GetMunicipality | src/lib/constants.ts:108-110 | a returned municipality has the requested id and is in the list; none exactly when no municipality has that id |
| Constants.GetDefaultMunicipality | src/lib/constants.ts:112-114 | the default is the first element, `demo-miami` |
| Constants.MunicipalityIdsDistinct | src/lib/constants.ts:21-106 | no two municipalities share an id |
| Constants.GetMunicipalityFindsEach | src/lib/constants.ts:21-110 | every listed municipality is found by its own id, so lookup by id is unambiguous |
| Math.Clamp | src/lib/math.ts:7 | the result lies in 0..100 and is the input itself when that is in range |
| Math.LitersFromFill | src/lib/math.ts:3-9 | the result is the integer nearest to clamped-fill × capacity / 100, halves up; 0 for fill ≤ 0, the capacity for fill ≥ 100, within 0..capacity for a non-negative capacity |
| Math.LitersMonotone | src/lib/math.ts:7-8 | more fill never gives fewer liters, for a non-negative capacity |
| Math.NoHalfAtUsedCapacities | src/lib/math.ts:1-9 | at capacity 100 (the tests) and 120 (`BASKET_MAX_LITERS`, the gauge) the exact liters product is never an exact half, so exact and floating-point rounding agree |
| Math.LitersFromFillExamples | tests/unit/math.test.ts:5-9 | −10 → 0, 50 → 50 and 150 → 100 at capacity 100 |
| Math.TallyByClass | src/lib/math.ts:11-27 | buckets are non-negative and together hold at most as many items as there are labels |
| Math.TallyCountsOccurrences | src/lib/math.ts:16-24 | bottle is the number of `bottle` labels, cup the number of `cup` labels, utensils the number of fork/knife/spoon labels; every other label is ignored |
| Math.TallyPermutationInvariant | src/lib/math.ts:16-24 | two label lists that are permutations of each other give the same tally |
| Math.TallyAppend | src/lib/math.ts:16-24 | the tally of a concatenation is the sum of the two tallies |
| Math.TallyTotalIsRecognized | src/lib/math.ts:14-26 | the three buckets add up to the number of labels in the detect classes, which is at most the list length |
| Math.TallyExample | tests/unit/math.test.ts:11-17 | fork, spoon, bottle gives bottle 1, cup 0, utensils 2 |
| Store.Defaults | src/lib/store.ts:28-35 | the starting record: fresh id and time, the default municipality, zero counts, fill 0, liters 0, empty image |
| Store.Set | src/lib/store.ts:27-41 | the slot is filled; every field named in the patch takes the patch's value; every other field keeps the current draft's value, or the default's when the slot was empty; id and createdAt survive a patch that does not name them |
| Store.Reset | src/lib/store.ts:42-45 | the slot is emptied whatever it held |
| Store.SetIdempotent | src/lib/store.ts:27-41 | setting the same patch twice equals setting it once, whatever fresh values the second call draws |
| Store.SetSetIsCombinedSet | src/lib/store.ts:36-37 | two successive sets equal one set of the combined patch (last write wins per field, a counts patch replaces the whole counts record) |
| Store.FillThenCountsExample | src/lib/store.ts:28-37 | a fill-only set on an empty slot starts from zero counts, and a later counts-only set keeps the fill |
| CounterPills.WithCount | src/components/CounterPills.tsx:19-24 | the chosen bucket gets the new value and the other two keep theirs |
| CounterPills.UpdateCount | src/components/CounterPills.tsx:10-25 | no draft: nothing changes; otherwise the chosen bucket becomes max(0, old + delta), the other buckets and every other draft field are unchanged |
| CounterPills.UpdateKeepsCountsNonNegative | src/components/CounterPills.tsx:18 | counts that start non-negative stay non-negative under any delta |
| CounterPills.PlusThenMinusRestores | src/components/CounterPills.tsx:18 | +1 then −1 restores a draft whose count was non-negative |
| FillGauge.OnSliderChange | src/components/FillGauge.tsx:31-37 | no draft: nothing changes; otherwise fill becomes the value and liters agree with it at 120 L, nothing else changes, and a value in 0..100 gives liters in 0..120 |
| FillGauge.DisplayedLiters | src/components/FillGauge.tsx:11-15 | a figure is shown exactly when there is a draft; it is the liters estimate of the draft's fill at 120 L, whatever liters the draft stores, so it lies in 0..120 and equals the stored estimate when that agrees with the fill |
| FillGauge.SliderThenDisplayAgree | src/components/FillGauge.tsx:15-36 | after the slider moved, the displayed figure is the stored estimate |
| FillGauge.CountUpdatePreservesConsistency | src/components/CounterPills.tsx:19-24 | a count adjustment keeps the liters consistent with the fill |
| Schemas.Issues | src/lib/schemas.ts:12-14 | each constraint is reported exactly when it is violated |
| Schemas.Parse | src/lib/schemas.ts:3-15 | accepts exactly when 0 ≤ fill ≤ 100, liters ≥ 0 and the image starts with `data:image/`; acceptance returns the record itself, rejection at least one issue |
| Schemas.NegativeCountsAccepted | src/lib/schemas.ts:7-11 | the counts carry no range constraint: negative counts pass |
| Schemas.EmptyImageRejected | src/lib/schemas.ts:14 | an empty image string is rejected as not a data URL |
| ReviewCard.InspectionMappingRoundTrip | src/components/ReviewCard.tsx:46-54 | the draft-to-inspection mapping copies every field, renames the image field and is undone by the reverse mapping |
| ReviewCard.OnSave | src/components/ReviewCard.tsx:34-66 | no draft: no effect; at most one save call, made exactly when validation passes, with the mapped draft; the slot is emptied exactly when validation and save both succeed, else left as it was; navigation exactly on success, an alert exactly on failure |
| ReviewCard.DraftWithoutImageNeverSaved | src/components/ReviewCard.tsx:46-54 | a draft with the default empty image is never saved and stays in the slot |
| Strings.DecimalRoundTrip | src/lib/csv.ts:4 | the decimal rendering of an integer reads back as that integer |
| Csv.EscapeField | src/lib/csv.ts:3-9 | a field without comma, quote or line feed is written unchanged; any other field is wrapped in quotes |
| Csv.UnescapeEscape | src/lib/csv.ts:5-6 | stripping the outer quotes of an escaped field and undoubling its quotes gives the original field |
| Csv.HeaderRowShape | src/lib/csv.ts:12-23 | no column name needs quoting, so the header line is the record of the column names |
| Csv.HeaderRowStart | src/lib/csv.ts:12-23 | the header line begins `id,createdAt,municipalityId` |
| Csv.InspectionsToCsv | src/lib/csv.ts:11-39 | the output starts with the header line, is the header alone for no rows, has a line feed right after the header otherwise, and never ends in a line feed |
| Csv.ExportRecords | src/lib/csv.ts:26-35 | one record more than there are rows, every record of eight fields, and record i + 1 the eight field strings of row i in header column order |
| Csv.ParseExport | src/lib/csv.ts:25-38 | reading the export back with an independent CSV reader yields exactly the header and every row's eight field strings, in input order |
| Csv.ExportRecordsHaveEightFields | src/lib/csv.ts:26-35 | the export reads back as one record more than there are rows, each of eight fields |
| Detection.FilterDetections | src/lib/detection.ts:77-90 | no more detections than the input; every survivor has score ≥ 0.5 and a detect class; a detection survives exactly when it is in the input and passes |
| Detection.FilterAppend | src/lib/detection.ts:78-79 | the filter distributes over concatenation, so survivors keep their input order |
| Detection.FilterIdempotent | src/lib/detection.ts:79 | filtering twice equals filtering once |
| Detection.LoadCoco | src/lib/detection.ts:16-25 | a cached model is returned with one debug entry and no load; otherwise the loader's result, cached exactly on success; only debug and info entries |
| Detection.LoadCocoCached | src/lib/detection.ts:17-20 | after a successful load, a second load keeps the state and returns the same handle |
| Detection.Infer | src/lib/detection.ts:43-111 | every published detection passes the filter; a rejection or an absent batch publishes nothing; a batch publishes its filtered list; a warning entry appears exactly for a non-benign rejection |
| Detection.DetectFrame | src/lib/detection.ts:27-112 | rejects only when loading the model rejects; once the model is loaded it resolves: the filtered batch, or nothing on any failure; a warning exactly for a non-benign rejection, the benign one logged at debug |
| Detection.EmptyInferenceYieldsNothing | src/lib/detection.ts:72-75 | an empty or absent raw batch publishes nothing and logs nothing |
| Loaders.LoadWithFallback | src/lib/ai/loaders.ts:16-41 | a cached handle is returned with no attempt; otherwise remote first, cached on success; any remote failure leads to exactly one local attempt; both failing raises ModelInitError caused by the local error and leaves the cache empty |
| Loaders.LoadCocoSsd | src/lib/ai/loaders.ts:16-41 | a failure carries the COCO-SSD message and leaves the cache empty |
| Loaders.LoadBlazeFace | src/lib/ai/loaders.ts:43-67 | a failure carries the BlazeFace message and leaves the cache empty |
| Loaders.SecondLoadUsesCache | src/lib/ai/loaders.ts:17-19 | after a successful load the next call returns the cached handle with no attempt, whatever the sources would do |
| Loaders.RetryAfterTotalFailure | src/lib/ai/loaders.ts:23-38 | after a total failure the next call starts again from the remote source |
| Loaders.LoadModels | src/lib/ai/loaders.ts:69-82 | succeeds exactly when both loads succeed, with both handles; otherwise a ModelInitError wrapping one of the failed loads' errors; both caches are updated either way |
| TfInit.IsBenignBackendError | src/lib/tfInit.ts:25 | true exactly when the message contains `Backend name 'cpu' not found` |
| TfInit.ErrorForwarded | src/lib/tfInit.ts:23-29 | the error filter forwards a call exactly when its text does not contain the benign message; a call without arguments is forwarded |
| TfInit.WarnForwarded | src/lib/tfInit.ts:13-20 | the warn filter forwards a call exactly when its text does not contain `nonMaxSuppression` |
| TfInit.InitEntries | src/lib/tfInit.ts:6-63 | the log starts with the start entry; a warning exactly when WebGL failed; the error entry exactly when both backends failed, and no other error; each backend's ready entry exactly when it was selected; the warm-up entry exactly when a backend was selected and the warm-up passed |
| TfInit.InitTf | src/lib/tfInit.ts:6-65 | WebGL first; WASM tried exactly when WebGL fails; both failing fails with the backend message and logs both failures; one warm-up exactly when a backend was selected; success exactly when a backend was selected and the warm-up passed, which is exactly when the warm-up entry is logged; the fallback warning and the failure error are logged exactly when they happen |
| TfInit.GetBackend | src/lib/tfInit.ts:74-76 | the reported name, or `unknown` when none or an empty one is reported |
| ImageOps.SnapshotSize | src/lib/image.ts:8-16 | a wider video is scaled to the target width with the height truncated from the aspect ratio; otherwise the size is kept; never larger than the video |
| ImageOps.SnapshotSizeIdempotent | src/lib/image.ts:10-16 | sizing a snapshot again keeps its size |
| ImageOps.SnapshotSizeExample | tests/unit/image/resizeAndCompress.spec.ts:48-50 | 1920 × 1080 at width 1280 gives 1280 × 720 |
| ImageOps.Snapshot | src/lib/image.ts:3-22 | a well-formed canvas of the chosen size whose pixels are the video drawn at that size |
| ImageOps.RestoreUndoesSave | src/lib/image.ts:28-44 | a restore after a save brings back the style and saved stack, whatever was drawn between |
| ImageOps.RoundPercent | src/lib/image.ts:38 | the label percentage is the integer nearest to score × 100 with halves rounded away from zero, and in 0..100 for a score in 0..1 |
| ImageOps.DrawnOps | src/lib/image.ts:34-43 | for each detection in order, its box and then its label, two operations per detection |
| ImageOps.DrawDetections | src/lib/image.ts:24-45 | style and saved stack are as before; earlier operations are kept and followed by each detection's box then label in the overlay style, in list order |
| Faces.FaceRect | src/lib/faces.ts:43-46 | the clip rectangle starts at the top-left corner and reaches the bottom-right one |
| Faces.FaceRectCovers | src/lib/faces.ts:43-53 | a face's clip region holds exactly the pixels whose centres lie between its corners |
| Faces.PaintAllIsAnonymised | src/lib/faces.ts:39-62 | painting the faces one by one gives the blurred source inside any face rectangle and the source everywhere else |
| Faces.LoadBlaze | src/lib/faces.ts:7-13 | a cached model is returned without loading; otherwise the loader's result, cached exactly on success |
| Faces.BlurFacesOnCanvas | src/lib/faces.ts:15-65 | a load failure or a face-estimation failure rejects; zero faces return the source itself; otherwise a canvas of the source's size, blurred inside the face rectangles and equal to the source elsewhere |
| CameraSurface.ResolveMunicipalityId | src/components/CameraSurface.tsx:32-33 | the `m` parameter when present and non-empty, otherwise the default municipality's id |
| CameraSurface.DisplayedMunicipality | src/components/CameraSurface.tsx:35 | the municipality with the id, or the default one for an unknown id |
| CameraSurface.StartupEntries | src/components/CameraSurface.tsx:51-86 | the start entry, then the backend start-up's entries; the camera-initialization error is logged exactly when the backend, the COCO load or the camera failed, the camera counting unless demo mode found the video element mounted; the models-loaded entry whenever backend and load succeeded |
| CameraSurface.Initialize | src/components/CameraSurface.tsx:51-86 | loading ends; models are loaded exactly when backend init and the COCO load succeed; the demo branch is taken only in demo mode with the video element mounted, and otherwise the camera is requested once the models are loaded; no error exactly when the models loaded and the demo branch was taken or the camera started; a camera failure's message becomes the error; the failure is logged exactly when the screen shows an error |
| CameraSurface.DemoNeedsMountedVideo | src/components/CameraSurface.tsx:60 | without a mounted video element the start-up in demo mode is the start-up outside it |
| CameraSurface.DemoOnFreshMountRequestsCamera | src/components/CameraSurface.tsx:56-82 | with the spinner still rendered, demo mode requests the camera, and a refused camera ends on the error screen with the failure logged |
| CameraSurface.InitializeDemoWithoutCamera | src/components/CameraSurface.tsx:51-86 | the start-up with the demo branch independent of the video element: demo mode never requests the camera and ends without an error exactly when the models load; outside demo mode it is the start-up as written |
| CameraSurface.Tick | src/components/CameraSurface.tsx:116-124 | a tick before the video is ready changes nothing and starts nothing; a ready tick advances the counter and starts an inference exactly when the new count is a multiple of 8 |
| CameraSurface.ThrottleCount | src/components/CameraSurface.tsx:122-124 | a run of ticks advances the counter by its ready ticks and starts one inference per multiple of 8 crossed |
| CameraSurface.ReadyTicksFromZero | src/components/CameraSurface.tsx:122-124 | from a fresh counter, N ready ticks start exactly ⌊N/8⌋ inferences |
| CameraSurface.Settle | src/components/CameraSurface.tsx:125-150 | a result replaces the published batch wholesale, sizes the overlay to the video and redraws exactly that batch; a rejection changes nothing and is logged exactly when it is not the benign error |
| CameraSurface.FailedInferenceClearsBatch | src/components/CameraSurface.tsx:125-142 | once the model is loaded, a failed inference settles with a result that clears the published batch |
| CameraSurface.Capture | src/components/CameraSurface.tsx:165-211 | no video: nothing changes; the draft is written, and the app navigates, exactly when the face blur succeeds, with the compressed anonymised image, the tally of the published batch and the municipality, keeping the other draft fields; on failure the user is alerted and the draft is untouched; with a video the log starts with the capture start, has the failure entry exactly when the user is alerted and the completion entry exactly when the app navigates |
| CameraSurface.CaptureCountsPublished | src/components/CameraSurface.tsx:189 | the capture counts of a published batch add up to the batch's size |
| Logger.Append | src/lib/utils/logger.ts:34-37 | disabled: no change; otherwise the entry is last, a buffer below 1000 grows by it, a full one drops only its oldest entry; at most 1000 entries |
| Logger.Log | src/lib/utils/logger.ts:26-38 | disabled: nothing changes; enabled: the switch stays on, the stamped entry is last, a short buffer grows by exactly that entry, and a bounded buffer becomes the last 1000 entries of the old buffer followed by it |
| Logger.LogDebug | src/lib/utils/logger.ts:62-64 | disabled: nothing changes; enabled: the buffer becomes the last 1000 entries of the old buffer followed by a debug entry |
| Logger.LogInfo | src/lib/utils/logger.ts:66-68 | disabled: nothing changes; enabled: the buffer becomes the last 1000 entries of the old buffer followed by an info entry |
| Logger.LogWarn | src/lib/utils/logger.ts:70-72 | disabled: nothing changes; enabled: the buffer becomes the last 1000 entries of the old buffer followed by a warn entry |
| Logger.LogError | src/lib/utils/logger.ts:74-93 | disabled: nothing changes; enabled: the buffer becomes the last 1000 entries of the old buffer followed by an error entry carrying the given error's name, message and stack, or no error |
| Logger.ClearLogs | src/lib/utils/logger.ts:103-105 | the buffer is empty and the switch is unchanged |
| Logger.SetEnabled | src/lib/utils/logger.ts:111-113 | the switch takes the value and the buffer is unchanged |
| Logger.AppendToLastN | src/lib/utils/logger.ts:34-37 | one log call on the last 1000 entries of a history gives the last 1000 entries of the history with the new entry |
| Logger.BufferIsMostRecentEntries | src/lib/utils/logger.ts:34-37 | while enabled, the buffer is exactly the most recent 1000 entries, oldest first |
| Logger.BufferAfterClear | src/lib/utils/logger.ts:103-105 | after a clear, the buffer is the last (at most 1000) entries logged since, in order |
| TensorMemory.Tick | src/lib/utils/dev/memory.ts:7-26 | the stored count becomes the current one; growth extends the streak by one, anything else resets it; a warning exactly when the count grew and the streak reached 3 |
| TensorMemory.StreakCountsTrailingGrowth | src/lib/utils/dev/memory.ts:11-20 | the streak is the number of consecutive growing ticks ending with the latest one |
| TensorMemory.WarnsAfterThreeGrowingTicks | src/lib/utils/dev/memory.ts:11-17 | a tick warns exactly when it grew and ends a run of at least three growing ticks |

## Left out

- Presentation: JSX, styling and the municipality colour themes.
- The session-storage persistence middleware of the draft store (src/lib/store.ts:47-52): storage is outside the model.
- Console output formatting and JSON serialisation in the logger (src/lib/utils/logger.ts:39-59), and `getLogsAsJSON`/`exportLogs`: output formatting only.
- The data payloads of log entries (detection time, class lists, capture sizes and times): timing and diagnostics only. Entries from the store and review screen are not emitted by the model.
- Logger.GetLogs: has no contract of its own. A value model has no aliasing, so the returned copy is the buffer itself; `Logger.BufferIsMostRecentEntries` states what it holds.
- Log entries not emitted: the `WASM paths set` debug entry (src/lib/tfInit.ts:33), the failure to play the demo video (src/components/CameraSurface.tsx:66) and the municipality change (src/components/CameraSurface.tsx:256). The first belongs to the configuration left out below, the second to playback, the third to presentation. A failed backend, a failed camera and a failed face estimation are recorded under the error name `Error`, whatever was thrown, since their outcomes carry only a message.
- `setWasmPaths` (src/lib/tfInit.ts:31-35, 46-50) and the 10-second restore of the console methods (src/lib/tfInit.ts:67-71): configuration and timers.
- Timing and concurrency: `requestAnimationFrame` scheduling, the interleaving of promises, and `Promise.all` settling order. The order in which two failing loads reject is a parameter of `Loaders.LoadModels`.
- Component unmounting and the `mounted` flag, `getUserMedia` and track cleanup: the camera is an `Outcome`. A demo video that fails to play is only logged. Whether the video element is mounted when the start-up reaches the demo check is the parameter `videoMounted` of `CameraSurface.Initialize`; React's render scheduling, which decides it, is not modelled.
- The branches that test for a missing model after a successful load (src/lib/detection.ts:34-37, src/lib/faces.ts:22-24): unreachable, because a load either stores a handle or rejects.
- Exceptions thrown by `drawImage` or `toDataURL`, and thrown values that are not `Error`s: the encoder is a total function.
- Patch fields explicitly set to `undefined`: `Partial` fields are either named with a value or absent.
- The blur filter's arithmetic and anti-aliasing at rectangle edges: a pixel is inside a clip rectangle when its centre is, and the blurred pixel is an oracle.
- Math.LitersFromFill: rounds the exact rational `clamp(fill) × capacity / 100`, halves up. The source rounds the binary floating-point product, which can fall just below a half: at capacity 50, fill 57 gives 28 in the source and 29 here. The two agree at the capacities the app uses, 100 and 120, where the exact product is never a half (`Math.NoHalfAtUsedCapacities`).
- ImageOps.SnapshotSize: models the canvas height as the integer `targetW * vh / vw`. The source computes `targetW / (vw / vh)` in floating point, which can differ from the exact quotient by rounding before the canvas truncates it.
- ImageOps.RoundPercent: rounds the exact real score, not the binary floating-point value `toFixed(0)` sees. The `-0` rendering of small negative scores is not modelled.
- ImageOps.CompressCanvasToDataUrl: the JPEG encoding is an oracle function, called at quality 0.7.
- Csv.HeaderRowStart: proves the header line's first three column names, as the unit test does, and not the full eight-name line. The line is `Join(Headers, ',')`, as the code writes it; `Csv.ParseExport` shows it reads back as the eight names.
- Csv.InspectionsToCsv: numbers are integers rendered by `String(n)`. Non-integer fill or liters values and their decimal rendering are not modelled. `String(n)` is modelled as plain decimal digits for every integer. JavaScript switches to exponent notation from 10^21 in magnitude, and loses integer precision above 2^53; such values are not modelled.

## Findings

| source | as written | input that shows it | evidently intended | confidence | as-written member | corrected member |
|---|---|---|---|---|---|---|
| src/components/CameraSurface.tsx:56-82 | the demo branch needs `demo && videoRef.current`, but while `loading` is true the component renders only the spinner (src/components/CameraSurface.tsx:213-215), so the video element is not mounted on the first run of the start-up effect, whose only dependency is `demo` | `/scan?demo=1` on a fresh mount, models loaded, camera refused: the camera is requested and the error screen shows "Failed to initialize camera" | demo mode plays the sample video and works without a camera (tests/e2e/scan.spec.ts:5-7) | medium, not executed; rests on React batching the state updates at src/components/CameraSurface.tsx:56-57 without rendering before line 60 | CameraSurface.DemoOnFreshMountRequestsCamera | CameraSurface.InitializeDemoWithoutCamera |
