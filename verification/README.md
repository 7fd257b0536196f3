# GIF frame loader — a Dafny model

This project models `GifFrameLoader`, the part of Glide that paces the playback
of an animated GIF. The loader asks the GIF decoder for one frame at a time and
submits one load request per frame into a `DelayTarget`. When the bitmap arrives,
the target posts a delayed `MSG_DELAY` message for its target time. When that
message fires, the frame becomes `current` and the observer is told its index.
The previous frame is then posted for release with `MSG_CLEAR`, and the next
load is attempted. `start`, `stop` and `clear` switch this loop on and off.

Everything runs on one handler thread. The model is therefore a functional state
machine:

- `GifFrameLoader.Loader` is the state. It holds the three flags `isRunning`,
  `isLoadPending` and `isCleared`, the optional `current` target, the request
  template and the decoder.
- The state also holds the world around the loader: the uptime of the latest
  event, the requests the pipeline still owes (`inFlight`) and the handler's
  message queue.
- Three logs record history: every submitted request (a target's id is its
  position here), every release (`Glide.clear`) and every observer call.
- Each source operation is a pure function of the state (`wrappers.dfy`,
  `frame_signature.dfy`, `gif_frame_loader.dfy`).
- `loader_invariants.dfy` defines `Valid`. It covers single flight, the
  accounting of targets (each is exactly one of current, in flight, queued or
  released), that a cleared loader holds no current frame, that the current
  frame was presented last, and pacing.
- `loader_safety.dfy` proves that every event preserves `Valid`.
- `loader_traces.dfy` lifts this to arbitrary runs of events. The looper may
  fire any queued message that is due, and the pipeline may deliver any
  outstanding request.
- `loader_properties.dfy` derives the user-facing properties.

Some details of the code are easy to misread; the model follows the code as
written:

- The cleared check happens when the delayed message fires (lines 110-114). It
  does not happen when the bitmap arrives (164-168).
- A frame that reaches the cleared branch is released through a queued
  `MSG_CLEAR`, not at once.
- The cleared branch leaves `isLoadPending` set. So after such a delivery, a
  later `start()` issues no load at all (`ClearedDeliveryBlocksRestart`).
- A presentation notifies the observer before it clears `isLoadPending`.
- The delay used for a frame is the one the decoder reports after advancing to
  that frame (lines 100-101). So the gap before frame k is at least the delay
  reported for frame k, not the delay of frame k-1.

## Model

| member | source | states |
|---|---|---|
| GifFrameLoader.Init | library/src/main/java/com/bumptech/glide/load/resource/gif/GifFrameLoader.java:34-58 | a new loader is not running, has no load pending, is not cleared, holds no frame and has nothing outstanding |
| LoaderSafety.InitValid | library/src/main/java/com/bumptech/glide/load/resource/gif/GifFrameLoader.java:34-38 | the initial state satisfies every invariant |
| GifFrameLoader.SetFrameTransformation | library/src/main/java/com/bumptech/glide/load/resource/gif/GifFrameLoader.java:61-64 | a null transformation is a caller error; otherwise only the template changes |
| LoaderProperties.TransformationAppliesToLaterLoads | library/src/main/java/com/bumptech/glide/load/resource/gif/GifFrameLoader.java:61-64 | outstanding requests keep their template; the next submission carries the new transformation |
| GifFrameLoader.Start | library/src/main/java/com/bumptech/glide/load/resource/gif/GifFrameLoader.java:66-74 | a no-op while running; otherwise running, not cleared, and exactly one load issued unless one was already pending |
| LoaderProperties.StartIsIdempotent | library/src/main/java/com/bumptech/glide/load/resource/gif/GifFrameLoader.java:66-74 | a second start changes nothing, so there is never a duplicate submission |
| GifFrameLoader.Stop | library/src/main/java/com/bumptech/glide/load/resource/gif/GifFrameLoader.java:76-78 | only `isRunning` changes; in-flight work, the pending flag, the cleared flag and the current frame stay |
| LoaderProperties.StopIsIdempotent | library/src/main/java/com/bumptech/glide/load/resource/gif/GifFrameLoader.java:76-78 | stopping twice is stopping once |
| GifFrameLoader.Clear | library/src/main/java/com/bumptech/glide/load/resource/gif/GifFrameLoader.java:80-88 | not running, cleared, no current frame; the previous current target is released at once, and nothing else changes |
| LoaderProperties.ClearReleasesCurrentOnce | library/src/main/java/com/bumptech/glide/load/resource/gif/GifFrameLoader.java:80-92 | after clear, the former current target appears exactly once in the release log and `getCurrentFrame` returns nothing |
| GifFrameLoader.GetCurrentFrame | library/src/main/java/com/bumptech/glide/load/resource/gif/GifFrameLoader.java:90-92 | nothing without a current target; otherwise that target's bitmap |
| LoaderProperties.CurrentFrameIsLastPresented | library/src/main/java/com/bumptech/glide/load/resource/gif/GifFrameLoader.java:90-92 | in every reachable state a frame is returned exactly when there is a current target, and it is the one presented last |
| GifFrameLoader.NextRequest | library/src/main/java/com/bumptech/glide/load/resource/gif/GifFrameLoader.java:100-106 | the submitted request targets the next id with the index and delay reported after the advance, is due `now + delay`, and carries a signature of the same number and the current template |
| GifFrameLoader.LoadNextFrame | library/src/main/java/com/bumptech/glide/load/resource/gif/GifFrameLoader.java:94-107 | no effect unless running with no load pending; otherwise pending is set, the decoder advances once, and one request is issued for the reported index, due `now + delay`, with a fresh signature and the current template |
| LoaderProperties.LoadIssuesFreshSignature | library/src/main/java/com/bumptech/glide/load/resource/gif/GifFrameLoader.java:103-106 | the new request's signature is unequal to the signature of every earlier request |
| FrameSignatures.Equals | library/src/main/java/com/bumptech/glide/load/resource/gif/GifFrameLoader.java:192-199 | a signature equals another object exactly when that object is a frame signature with the same UUID |
| FrameSignatures.EqualsIsEquivalence | library/src/main/java/com/bumptech/glide/load/resource/gif/GifFrameLoader.java:192-199 | signature equality is reflexive, symmetric and transitive |
| GifFrameLoader.OnResourceReady | library/src/main/java/com/bumptech/glide/load/resource/gif/GifFrameLoader.java:164-168 | the request leaves the pipeline and its target, now holding the bitmap, is queued as a delay message due at its target time; flags, current frame and observer are untouched |
| GifFrameLoader.Present | library/src/main/java/com/bumptech/glide/load/resource/gif/GifFrameLoader.java:116-124 | the target becomes current, the observer hears its index once, the previous target (if any) is posted for release, and no load is pending |
| GifFrameLoader.OnFrameReady | library/src/main/java/com/bumptech/glide/load/resource/gif/GifFrameLoader.java:110-126 | when cleared only a release of the target is posted, with current and pending unchanged; otherwise the target is presented, and then either a load is issued (running) or nothing else changes (stopped) |
| GifFrameLoader.HandleMessage | library/src/main/java/com/bumptech/glide/load/resource/gif/GifFrameLoader.java:133-143 | returns true exactly for `MSG_DELAY`; `MSG_CLEAR` releases exactly the carried target; other messages change nothing |
| GifFrameLoader.Dispatch | library/src/main/java/com/bumptech/glide/load/resource/gif/GifFrameLoader.java:110-141 | firing a due message removes it from the queue; a release message releases its own target; a delay message is checked against the cleared flag at firing time and, when not cleared, runs the whole `onFrameReady` on the remaining queue |
| LoaderSafety.LoadPreservesValid | library/src/main/java/com/bumptech/glide/load/resource/gif/GifFrameLoader.java:94-107 | attempting a load keeps every invariant, in particular single flight and the accounting of targets |
| LoaderSafety.StartPreservesValid | library/src/main/java/com/bumptech/glide/load/resource/gif/GifFrameLoader.java:66-74 | start keeps every invariant |
| LoaderSafety.StopPreservesValid | library/src/main/java/com/bumptech/glide/load/resource/gif/GifFrameLoader.java:76-78 | stop keeps every invariant |
| LoaderSafety.ClearPreservesValid | library/src/main/java/com/bumptech/glide/load/resource/gif/GifFrameLoader.java:80-88 | clear keeps every invariant |
| LoaderSafety.SetFrameTransformationPreservesValid | library/src/main/java/com/bumptech/glide/load/resource/gif/GifFrameLoader.java:61-64 | changing the transformation keeps every invariant |
| LoaderSafety.ResourceReadyPreservesValid | library/src/main/java/com/bumptech/glide/load/resource/gif/GifFrameLoader.java:164-168 | a pipeline delivery keeps every invariant |
| LoaderSafety.FireClearValid | library/src/main/java/com/bumptech/glide/load/resource/gif/GifFrameLoader.java:138-141 | firing a release message keeps every invariant |
| LoaderSafety.FireDelayClearedValid | library/src/main/java/com/bumptech/glide/load/resource/gif/GifFrameLoader.java:111-114 | a delay message firing while cleared keeps every invariant |
| LoaderSafety.PresentValid | library/src/main/java/com/bumptech/glide/load/resource/gif/GifFrameLoader.java:116-124 | presenting a due frame keeps every invariant, including pacing |
| LoaderSafety.DispatchPreservesValid | library/src/main/java/com/bumptech/glide/load/resource/gif/GifFrameLoader.java:110-143 | firing any due message keeps every invariant |
| LoaderTraces.Step | library/src/main/java/com/bumptech/glide/load/resource/gif/GifFrameLoader.java:61-168 | any event moves the clock forward or keeps it, and only appends to the submission, release and observer logs |
| LoaderTraces.StepPreservesValid | library/src/main/java/com/bumptech/glide/load/resource/gif/GifFrameLoader.java:61-168 | every enabled event keeps every invariant |
| LoaderTraces.RunPreservesValid | library/src/main/java/com/bumptech/glide/load/resource/gif/GifFrameLoader.java:61-168 | every run of events from a valid state ends in a valid state |
| LoaderTraces.ReachableIsValid | library/src/main/java/com/bumptech/glide/load/resource/gif/GifFrameLoader.java:34-58 | every state reachable from a new loader is valid |
| LoaderTraces.ClearedStaysSilent | library/src/main/java/com/bumptech/glide/load/resource/gif/GifFrameLoader.java:110-114 | after clear and before the next start, no event notifies the observer, even for frames already in flight |
| LoaderTraces.ClearBeforeFirstFrame | library/src/main/java/com/bumptech/glide/load/resource/gif/GifFrameLoader.java:66-114 | start then clear before the first bitmap: the frame is released once, never shown, and a later start loads nothing |
| LoaderProperties.EveryTargetAccountedOnce | library/src/main/java/com/bumptech/glide/load/resource/gif/GifFrameLoader.java:116-122 | every target ever created is in exactly one place: current, in flight, queued or released |
| LoaderProperties.NoDoubleRelease | library/src/main/java/com/bumptech/glide/load/resource/gif/GifFrameLoader.java:80-141 | no target is released twice across clear, the replaced-frame release and the cleared-delivery release |
| LoaderProperties.ReleasedIsGone | library/src/main/java/com/bumptech/glide/load/resource/gif/GifFrameLoader.java:138-141 | a released target is never current, in flight, or carried by a queued message |
| LoaderProperties.AtMostOneOutstanding | library/src/main/java/com/bumptech/glide/load/resource/gif/GifFrameLoader.java:95-98 | at most one request is in flight or waiting as a delay message, and then a load is pending |
| LoaderProperties.PresentationsArePaced | library/src/main/java/com/bumptech/glide/load/resource/gif/GifFrameLoader.java:100-102 | consecutive presentations are at least the later frame's reported delay apart, and none comes before its target time |
| LoaderProperties.StoppedLoaderStillPresents | library/src/main/java/com/bumptech/glide/load/resource/gif/GifFrameLoader.java:110-126 | a frame loaded before stop is still presented when its message fires, and no further load is issued |
| LoaderProperties.ClearedDeliveryBlocksRestart | library/src/main/java/com/bumptech/glide/load/resource/gif/GifFrameLoader.java:110-114 | a delivery while cleared is only posted for release and leaves the pending flag set, so a later start issues no load |

## Left out

- The Android `Handler`, `Looper` and `Message` machinery is abstract. Time-ordered dispatch becomes "any queued message that is due may fire". The message pool and `obtainMessage` are not modelled.
- `SystemClock.uptimeMillis` is an integer parameter of the events that read it. The clock never goes back. The `long` overflow of `targetTime` is not modelled, because uptime is far from the 64-bit limit.
- `GifDecoder` is not part of this model. What it reports after `advance()` (frame index and `getNextDelay()`) is an input to each load. The model counts the advances.
- The Glide request pipeline is opaque: `RequestBuilder`, `apply`, `load`, `into`, the internals of `Glide.clear`, bitmap decoding and applying transformations. The only assumption is that it delivers each submitted request at most once, in any order.
- Load failure is not modelled, because `DelayTarget` does not override `onLoadFailed`. A failed request would stay outstanding, and `isLoadPending` would stay set.
- The cache settings in `getRequestBuilder` (lines 171-177) and the `Context` wiring of the public constructor (44-47) are configuration, not behaviour.
- `FrameSignature.hashCode` is not modelled, and neither is `updateDiskCacheKey`, which always throws and is never reached with the cache disabled. UUID randomness is replaced by a counter, which makes every signature fresh.
- The `FrameCallback` observer is only a log of the indices it receives. Re-entrant calls from `onFrameReady` back into `stop` or `clear` are not modelled.
- LoaderTraces.Step: `setFrameTransformation(null)` is excluded by `Enabled`, not modelled as the exception `Preconditions.checkNotNull` throws.
