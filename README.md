# VideoIOComponent frame pipeline, in Dafny

A model of the video path of HaishinKit's `VideoIOComponent` and the proofs about it. It covers two parts.

- **Effect registry.** `effects` is an ordered list of `VisualEffect`s.
  - `registerEffect(_:index:)` refuses an effect that is already present. Otherwise it appends the effect (negative index) or inserts it at the index.
  - `registerEffect(_:)` registers at index -1.
  - `unregisterEffect(_:)` removes the first occurrence.
  - `effect(_:)` runs the effects over the captured image, first to last.
- **Ingestion dispatch.** For each captured sample, `appendSampleBuffer(_:)` and `appendSampleBufferWithoutDraw(_:)` decide which collaborator calls happen and in what order. The collaborators are the CoreImage context (render), the drawable (draw), the H.264 encoder (encode) and the mixer's recorder (record). The model also covers:
  - the `formatDescription` observer that passes the value on to the decoder;
  - the capture delegate;
  - `drawImage(_:)`;
  - the `DisplayLinkedQueue` delegate hook `queue(_:)`.

Files:

- `Media.dfy` (module `Media`): the value types. These are pixel buffers, sample buffers (an optional image buffer, a presentation timestamp, a duration), format descriptions, visual effects and images.
- `EffectChain.dfy` (module `EffectChain`): the registry as functions on lists, the fold, and the lemmas about them.
- `Dispatch.dfy` (module `Dispatch`): the collaborator calls as a trace of `Render | Draw | Encode | Record` events. It has the functions giving the trace each entry point produces, and the lemmas about those traces.
- `VideoIO.dfy` (module `VideoIO`): the imperative model.
  - Class `VideoIOComponent` has the `effects` list and the `trace` of calls made so far as fields. Its methods update them in place, and their postconditions tie the new state to the functions above.
  - Class `H264Decoder` holds the `formatDescription` that the component writes to.
  - `EffectScenario` and `DropScenario` are clients that exercise the class contracts.

Modelling choices:

- The registry compares effects with `==`, through `contains` (`registerEffect(_:index:)`) and `firstIndex(of:)` (`unregisterEffect(_:)`). The model gives each effect an identity `id` and compares those.
- `CIImage` and `VisualEffect.execute` are uninterpreted. An image is a term, either `FromPixelBuffer(buffer)` or `Executed(effect, input)`. So the image the fold produces records exactly which effects ran, in which order, on which buffer.
- The optional collaborators `context`, `drawable` and the weak `mixer` are each represented only by whether they are set (`hasContext`, `hasDrawable`, `hasMixer`). The encoder is a lazy non-optional property, so it is always called.
- Timestamps are CMTime values in the sample's own timescale, modelled as integers. They are only passed through.

Behaviour of the code worth stating, since it is easy to assume otherwise:

- With effects registered and a `context` set, the encoder (and the recorder) receive the buffer the effects were rendered into, not the frame as captured: `context?.render(image, to: buffer)` writes the effects' output into the sample's own pixel buffer, and that same buffer is then drawn and encoded. `Dispatch.RenderTargetIsEncoded` states this. With effects but no `context`, the effects' image is computed and thrown away, and the frame is drawn and encoded as captured.
- The drawable is called even when `context` is nil. In that case the buffer is drawn without any render.
- `Array.insert(_:at:)` traps for an index past the end, so `registerEffect(_:index:)` requires `index <= effects.count` whenever the effect is not already present.
- `effect(_:)` handles an empty effect list, although `appendSampleBuffer(_:)` only calls it with a non-empty one. It then returns the captured image unchanged.

## Model

| member | source | states |
|---|---|---|
| `EffectChain.FirstIndex` | HaishinKitDebug/HaishinKit/Sources/Media/VideoIOComponent.swift:459 | `firstIndex(of:)`: no index exactly when the effect is absent; otherwise an in-range index holding the effect, with no earlier occurrence |
| `EffectChain.Insert` | HaishinKitDebug/HaishinKit/Sources/Media/VideoIOComponent.swift:442-447 | the list grows by one. A negative index appends. Otherwise the effect sits at the index, earlier elements are unchanged and later ones shift by one. Requires the index to be at most the length |
| `EffectChain.InsertKeepsUnique` | HaishinKitDebug/HaishinKit/Sources/Media/VideoIOComponent.swift:439-447 | registration adds exactly one occurrence (multiset). Inserting an absent effect keeps a duplicate-free list duplicate-free |
| `EffectChain.Remove` | HaishinKitDebug/HaishinKit/Sources/Media/VideoIOComponent.swift:459-463 | an absent effect leaves the list unchanged. Otherwise the list shrinks by one, and the elements before the first occurrence stay while the later ones shift back |
| `EffectChain.RemoveDropsEffect` | HaishinKitDebug/HaishinKit/Sources/Media/VideoIOComponent.swift:459-463 | unregistering removes exactly one occurrence (multiset). On a duplicate-free list the effect is no longer a member, and the list stays duplicate-free |
| `EffectChain.RemoveUndoesInsert` | HaishinKitDebug/HaishinKit/Sources/Media/VideoIOComponent.swift:434-464 | unregistering an effect just registered at any valid index restores the list |
| `EffectChain.InsertUndoesRemove` | HaishinKitDebug/HaishinKit/Sources/Media/VideoIOComponent.swift:434-464 | on a duplicate-free list, registering an effect again at the index it was unregistered from restores the list |
| `EffectChain.FoldAppend` | HaishinKitDebug/HaishinKit/Sources/Media/VideoIOComponent.swift:426-432 | the last effect of the list is the outermost call: the fold computes eN(...e1(image)) |
| `EffectChain.FoldConcat` | HaishinKitDebug/HaishinKit/Sources/Media/VideoIOComponent.swift:426-432 | running a concatenated list runs the first part, then the second on its result |
| `EffectChain.FoldOrder` | HaishinKitDebug/HaishinKit/Sources/Media/VideoIOComponent.swift:426-432 | the effects run on a frame are exactly the registered ones, in list order, on the captured buffer. With no effects the captured image is returned unchanged |
| `EffectChain.RegisterThenUnregister` | HaishinKitDebug/HaishinKit/Sources/Media/VideoIOComponent.swift:426-464 | after appending A and then B, the image is B(A(frame)). After unregistering A, it is B(frame) |
| `Dispatch.AppendSampleBufferCalls` | HaishinKitDebug/HaishinKit/Sources/Media/VideoIOComponent.swift:299-361 | no image buffer means no calls at all. Otherwise: exactly one encode, with the sample's buffer, timestamp and duration; one record of the sample iff there is a mixer; one draw of the buffer iff there is a drawable; and one render of the folded effects into the buffer iff there are effects and a context |
| `Dispatch.AppendSampleBufferOrder` | HaishinKitDebug/HaishinKit/Sources/Media/VideoIOComponent.swift:299-361 | the calls come in the order render, draw, encode, record, each at most once |
| `Dispatch.RenderTargetIsEncoded` | HaishinKitDebug/HaishinKit/Sources/Media/VideoIOComponent.swift:312-348 | with effects and a context, the buffer given to the encoder is the one the effects' image was rendered into just before |
| `Dispatch.AppendSampleBufferWithoutDrawCalls` | HaishinKitDebug/HaishinKit/Sources/Media/VideoIOComponent.swift:363-375 | never renders or draws. Makes the same encode and record calls as `appendSampleBuffer` (none without an image buffer), encode before record |
| `Dispatch.AppendAllForwardsInCaptureOrder` | HaishinKitDebug/HaishinKit/Sources/Media/VideoIOComponent.swift:299-361 | over a run of samples, the encoder gets exactly one call per sample that has an image buffer, in capture order and with that sample's timing. The recorder (with a mixer) gets the same samples in the same order |
| `VideoIO.VideoIOComponent.constructor` | HaishinKitDebug/HaishinKit/Sources/Media/VideoIOComponent.swift:216-225 | a new component has no effects, no context and no drawable, is attached to its mixer, and has a fresh decoder without a format description |
| `VideoIO.VideoIOComponent.SetFormatDescription` | HaishinKitDebug/HaishinKit/Sources/Media/VideoIOComponent.swift:12-16 | after setting `formatDescription`, the decoder's `formatDescription` equals the new value |
| `VideoIO.VideoIOComponent.RegisterEffectAt` | HaishinKitDebug/HaishinKit/Sources/Media/VideoIOComponent.swift:434-448 | returns false and leaves `effects` unchanged iff the effect is already present. Otherwise `effects` becomes `Insert(old effects, effect, index)`. A duplicate-free list stays duplicate-free |
| `VideoIO.VideoIOComponent.RegisterEffect` | HaishinKitDebug/HaishinKit/Sources/Media/VideoIOComponent.swift:450-452 | behaves as registering at index -1: appends an absent effect and returns true, or returns false and changes nothing |
| `VideoIO.VideoIOComponent.UnregisterEffect` | HaishinKitDebug/HaishinKit/Sources/Media/VideoIOComponent.swift:454-464 | returns true iff the effect was present. `effects` becomes `Remove(old effects, effect)`, so an absent effect changes nothing. On a duplicate-free list the effect is no longer a member |
| `VideoIO.VideoIOComponent.Effect` | HaishinKitDebug/HaishinKit/Sources/Media/VideoIOComponent.swift:426-432 | the loop returns the fold of `effects` over the buffer's image: exactly the registered effects in list order, on that buffer |
| `VideoIO.VideoIOComponent.AppendSampleBuffer` | HaishinKitDebug/HaishinKit/Sources/Media/VideoIOComponent.swift:299-361 | appends to the trace exactly the calls `AppendSampleBufferEvents` gives for the current effects and collaborators |
| `VideoIO.VideoIOComponent.AppendSampleBufferWithoutDraw` | HaishinKitDebug/HaishinKit/Sources/Media/VideoIOComponent.swift:363-375 | appends to the trace exactly the encode and record calls for the sample, or nothing without an image buffer |
| `VideoIO.VideoIOComponent.CaptureOutput` | HaishinKitDebug/HaishinKit/Sources/Media/VideoIOComponent.swift:469-471 | a captured sample is dispatched exactly as by `appendSampleBuffer` |
| `VideoIO.VideoIOComponent.DrawImage` | HaishinKitDebug/HaishinKit/Sources/Media/VideoIOComponent.swift:377-379 | draws the image iff there is a drawable, and makes no other call |
| `VideoIO.VideoIOComponent.Queue` | HaishinKitDebug/HaishinKit/Sources/Media/VideoIOComponent.swift:483-486 | a sample the playback queue releases is drawn from its image buffer iff there is a drawable; with no drawable no call is made. The image buffer must be present when there is a drawable, because only then is it force-unwrapped |

## Left out

- Camera and device configuration (`fps`, `orientation`, `torch`, `continuousAutofocus`, `focusPointOfInterest`, `exposurePointOfInterest`, `continuousExposure`, `videoSettings`, `output`, `input`, `screen`, `attachCamera`, `setTorchMode`): AVFoundation hardware calls with lock/unlock and logging. Apart from skipping unchanged values, they have no logic that can be stated.
- The iOS orientation setup in `init(mixer:)`, and the encoder's `lockQueue` and the decoder's `delegate` wiring: hardware and threading glue.
- `dispose()`: main-thread marshalling of `drawable?.attachStream(nil)`, purely a concurrency concern.
- `objc_sync_enter`/`objc_sync_exit` around the registry, and the `lockQueue` dispatch queue: the registry is modelled sequentially, one call at a time.
- `createPixelBuffer` and `createSampleBuffer`: thin wrappers over CoreVideo and CoreMedia constructors.
- The actual CoreImage rendering, and the pixel contents of images and buffers: `render` is an event, `execute` an uninterpreted constructor.
- The commented-out frame-skipping logic (`toSkipCount`, `blendTime`): inactive, and based on floating-point timing.
- `DisplayLinkedQueue` (its FIFO, pacing and depth policy) and `sampleOutput(video:)`, which only enqueues into it: the queue's source is not part of this model. Only its delegate hook `queue(_:)` is modelled.
- `VideoIO.VideoIOComponent.Queue`: does not model the `mixer?.audioIO.playback.startQueueIfNeed()` call, because the audio playback component is not part of this model.
- Ordering of `formatDescription` updates against decoding: the decoder's decode path is not part of this model. The setter updates the decoder synchronously, in the same call.
- `HaishinKitDebug/ViewController.swift`: UIKit view setup, the audio session, and RTMP connect and publish glue.
