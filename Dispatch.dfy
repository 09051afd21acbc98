/** The collaborator calls that VideoIOComponent makes for one captured
    sample, as a trace of events, and what those traces promise: which
    calls happen, with which arguments, and in which order. */
module Dispatch {
  import opened Media
  import opened EffectChain

  /** One call into a collaborator of the video path. */
  datatype Event =
    | /** context.render(image, to: target) */
      Render(image: Image, target: PixelBuffer)
    | /** drawable.draw(image:) */
      Draw(image: Image)
    | /** encoder.encodeImageBuffer(buffer, presentationTimeStamp:, duration:) */
      Encode(buffer: PixelBuffer, presentationTimeStamp: int, duration: int)
    | /** mixer.recorder.appendSampleBuffer(sample, mediaType: .video) */
      Record(sample: SampleBuffer)

  datatype Kind = RenderKind | DrawKind | EncodeKind | RecordKind

  function KindOf(event: Event): Kind
  {
    match event
    case Render(_, _) => RenderKind
    case Draw(_) => DrawKind
    case Encode(_, _, _) => EncodeKind
    case Record(_) => RecordKind
  }

  /** Position of a kind of call in the pipeline: render, draw, encode, record. */
  function Rank(event: Event): nat
  {
    match event
    case Render(_, _) => 0
    case Draw(_) => 1
    case Encode(_, _, _) => 2
    case Record(_) => 3
  }

  /** The events of one kind, in the order they occur. */
  function OfKind(trace: seq<Event>, kind: Kind): (r: seq<Event>)
    ensures |r| <= |trace|
    ensures forall i :: 0 <= i < |r| ==> KindOf(r[i]) == kind
  {
    if trace == [] then []
    else (if KindOf(trace[0]) == kind then [trace[0]] else []) + OfKind(trace[1..], kind)
  }

  lemma {:induction false} OfKindConcat(first: seq<Event>, second: seq<Event>, kind: Kind)
    ensures OfKind(first + second, kind) == OfKind(first, kind) + OfKind(second, kind)
    decreases |first|
  {
    if first == [] {
      assert first + second == second;
    } else {
      assert (first + second)[0] == first[0];
      assert (first + second)[1..] == first[1..] + second;
      OfKindConcat(first[1..], second, kind);
    }
  }

  /** Every call comes strictly later in the pipeline than the calls before
      it; in particular no kind of call happens twice. */
  predicate InPipelineOrder(trace: seq<Event>)
  {
    forall i, j :: 0 <= i < j < |trace| ==> Rank(trace[i]) < Rank(trace[j])
  }

  /** A call made through an optional reference (`x?.call()`): it happens
      only when the reference is set. */
  function When(present: bool, event: Event): seq<Event>
  {
    if present then [event] else []
  }

  /** The outbound part shared by both entry points: the encoder is always
      given the image buffer with the sample's timing, then the recorder (if
      there is a mixer) is given the sample. */
  function ForwardEvents(sample: SampleBuffer, buffer: PixelBuffer, hasMixer: bool): seq<Event>
  {
    [Encode(buffer, sample.presentationTimeStamp, sample.duration)] + When(hasMixer, Record(sample))
  }

  /** The calls appendSampleBuffer makes. With effects, the effect chain's
      image is rendered into the sample's own buffer before that buffer is
      drawn and encoded; without effects the buffer is drawn as captured. */
  function AppendSampleBufferEvents(effects: seq<VisualEffect>, hasContext: bool, hasDrawable: bool,
                                    hasMixer: bool, sample: SampleBuffer): seq<Event>
  {
    match sample.imageBuffer
    case None => []
    case Some(buffer) =>
      When(effects != [] && hasContext, Render(Fold(effects, FromPixelBuffer(buffer)), buffer))
      + (When(hasDrawable, Draw(FromPixelBuffer(buffer))) + ForwardEvents(sample, buffer, hasMixer))
  }

  /** The calls appendSampleBufferWithoutDraw makes. */
  function AppendSampleBufferWithoutDrawEvents(hasMixer: bool, sample: SampleBuffer): seq<Event>
  {
    match sample.imageBuffer
    case None => []
    case Some(buffer) => ForwardEvents(sample, buffer, hasMixer)
  }

  lemma OfKindWhen(present: bool, event: Event, kind: Kind)
    ensures OfKind(When(present, event), kind) == When(present && KindOf(event) == kind, event)
  {
    if present {
      assert [event][1..] == [];
    }
  }

  lemma ForwardEventsKinds(sample: SampleBuffer, buffer: PixelBuffer, hasMixer: bool)
    ensures OfKind(ForwardEvents(sample, buffer, hasMixer), RenderKind) == []
    ensures OfKind(ForwardEvents(sample, buffer, hasMixer), DrawKind) == []
    ensures OfKind(ForwardEvents(sample, buffer, hasMixer), EncodeKind)
         == [Encode(buffer, sample.presentationTimeStamp, sample.duration)]
    ensures OfKind(ForwardEvents(sample, buffer, hasMixer), RecordKind) == When(hasMixer, Record(sample))
    ensures InPipelineOrder(ForwardEvents(sample, buffer, hasMixer))
    ensures forall k :: 0 <= k < |ForwardEvents(sample, buffer, hasMixer)| ==> Rank(ForwardEvents(sample, buffer, hasMixer)[k]) >= 2
  {
    var encode := Encode(buffer, sample.presentationTimeStamp, sample.duration);
    forall kind: Kind
      ensures OfKind(ForwardEvents(sample, buffer, hasMixer), kind)
           == When(kind == EncodeKind, encode) + When(hasMixer && kind == RecordKind, Record(sample))
    {
      OfKindConcat([encode], When(hasMixer, Record(sample)), kind);
      OfKindWhen(true, encode, kind);
      OfKindWhen(hasMixer, Record(sample), kind);
    }
  }

  lemma OfKindConcat3(first: seq<Event>, second: seq<Event>, third: seq<Event>, kind: Kind)
    ensures OfKind(first + second + third, kind) == OfKind(first, kind) + OfKind(second, kind) + OfKind(third, kind)
  {
    OfKindConcat(first + second, third, kind);
    OfKindConcat(first, second, kind);
  }

  lemma OfKindSingle(event: Event, kind: Kind)
    ensures OfKind([event], kind) == if KindOf(event) == kind then [event] else []
  {
    assert [event][1..] == [];
  }

  /** The calls of one kind in a trace made of an optional call, another
      optional call and a rest. */
  lemma SplitKind(first: seq<Event>, firstEvent: Event, second: seq<Event>, secondEvent: Event,
                  rest: seq<Event>, kind: Kind)
    requires first == [] || first == [firstEvent]
    requires second == [] || second == [secondEvent]
    ensures OfKind(first + second + rest, kind)
         == (if first != [] && KindOf(firstEvent) == kind then [firstEvent] else [])
          + (if second != [] && KindOf(secondEvent) == kind then [secondEvent] else [])
          + OfKind(rest, kind)
  {
    OfKindConcat3(first, second, rest, kind);
    if first != [] { OfKindSingle(firstEvent, kind); }
    if second != [] { OfKindSingle(secondEvent, kind); }
  }

  /** An optional call placed before a trace in pipeline order keeps it in
      pipeline order when it belongs earlier than every call of the trace. */
  lemma WhenInPipelineOrder(present: bool, event: Event, rest: seq<Event>)
    requires InPipelineOrder(rest)
    requires forall k :: 0 <= k < |rest| ==> Rank(event) < Rank(rest[k])
    ensures InPipelineOrder(When(present, event) + rest)
    ensures forall k :: 0 <= k < |When(present, event) + rest| ==> Rank(event) <= Rank((When(present, event) + rest)[k])
  {
    if present {
      var trace := [event] + rest;
      forall i, j | 0 <= i < j < |trace| ensures Rank(trace[i]) < Rank(trace[j]) {
        assert trace[j] == rest[j - 1];
        if i > 0 { assert trace[i] == rest[i - 1]; }
      }
      forall k | 0 < k < |trace| ensures Rank(event) <= Rank(trace[k]) {
        assert trace[k] == rest[k - 1];
      }
    } else {
      assert When(present, event) + rest == rest;
    }
  }

  /** The calls of one kind that appendSampleBuffer makes for a sample with
      an image buffer. */
  lemma AppendSampleBufferKind(effects: seq<VisualEffect>, hasContext: bool, hasDrawable: bool,
                               hasMixer: bool, sample: SampleBuffer, kind: Kind)
    requires sample.imageBuffer.Some?
    ensures OfKind(AppendSampleBufferEvents(effects, hasContext, hasDrawable, hasMixer, sample), kind)
         == When(effects != [] && hasContext && kind == RenderKind,
                 Render(Fold(effects, FromPixelBuffer(sample.imageBuffer.value)), sample.imageBuffer.value))
          + When(hasDrawable && kind == DrawKind, Draw(FromPixelBuffer(sample.imageBuffer.value)))
          + OfKind(ForwardEvents(sample, sample.imageBuffer.value, hasMixer), kind)
  {
    var buffer := sample.imageBuffer.value;
    var render := Render(Fold(effects, FromPixelBuffer(buffer)), buffer);
    var pre := When(effects != [] && hasContext, render);
    var draw := When(hasDrawable, Draw(FromPixelBuffer(buffer)));
    var forward := ForwardEvents(sample, buffer, hasMixer);
    assert AppendSampleBufferEvents(effects, hasContext, hasDrawable, hasMixer, sample) == pre + draw + forward by {
      assert AppendSampleBufferEvents(effects, hasContext, hasDrawable, hasMixer, sample) == pre + (draw + forward);
    }
    SplitKind(pre, render, draw, Draw(FromPixelBuffer(buffer)), forward, kind);
  }

  /** appendSampleBuffer: a sample without an image buffer produces no call;
      otherwise exactly one encode with the sample's buffer and timing, one
      record of the sample when there is a mixer, one draw of the buffer when
      there is a drawable, and a render of the effect chain's image into the
      buffer only when effects are registered and there is a context. */
  lemma AppendSampleBufferCalls(effects: seq<VisualEffect>, hasContext: bool, hasDrawable: bool,
                                hasMixer: bool, sample: SampleBuffer)
    ensures sample.imageBuffer.None? ==> AppendSampleBufferEvents(effects, hasContext, hasDrawable, hasMixer, sample) == []
    ensures sample.imageBuffer.Some? ==>
      var trace := AppendSampleBufferEvents(effects, hasContext, hasDrawable, hasMixer, sample);
      var buffer := sample.imageBuffer.value;
      OfKind(trace, EncodeKind) == [Encode(buffer, sample.presentationTimeStamp, sample.duration)] &&
      OfKind(trace, RecordKind) == When(hasMixer, Record(sample)) &&
      OfKind(trace, DrawKind) == When(hasDrawable, Draw(FromPixelBuffer(buffer))) &&
      OfKind(trace, RenderKind) == When(effects != [] && hasContext, Render(Fold(effects, FromPixelBuffer(buffer)), buffer))
  {
    if sample.imageBuffer.Some? {
      var trace := AppendSampleBufferEvents(effects, hasContext, hasDrawable, hasMixer, sample);
      var buffer := sample.imageBuffer.value;
      assert OfKind(trace, EncodeKind) == [Encode(buffer, sample.presentationTimeStamp, sample.duration)] by {
        ForwardEventsKinds(sample, buffer, hasMixer);
        AppendSampleBufferKind(effects, hasContext, hasDrawable, hasMixer, sample, EncodeKind);
      }
      assert OfKind(trace, RecordKind) == When(hasMixer, Record(sample)) by {
        ForwardEventsKinds(sample, buffer, hasMixer);
        AppendSampleBufferKind(effects, hasContext, hasDrawable, hasMixer, sample, RecordKind);
      }
      assert OfKind(trace, DrawKind) == When(hasDrawable, Draw(FromPixelBuffer(buffer))) by {
        ForwardEventsKinds(sample, buffer, hasMixer);
        AppendSampleBufferKind(effects, hasContext, hasDrawable, hasMixer, sample, DrawKind);
      }
      assert OfKind(trace, RenderKind) == When(effects != [] && hasContext, Render(Fold(effects, FromPixelBuffer(buffer)), buffer)) by {
        ForwardEventsKinds(sample, buffer, hasMixer);
        AppendSampleBufferKind(effects, hasContext, hasDrawable, hasMixer, sample, RenderKind);
      }
    }
  }

  /** appendSampleBuffer makes its calls in the order render, draw, encode,
      record, each at most once. */
  lemma AppendSampleBufferOrder(effects: seq<VisualEffect>, hasContext: bool, hasDrawable: bool,
                                hasMixer: bool, sample: SampleBuffer)
    ensures InPipelineOrder(AppendSampleBufferEvents(effects, hasContext, hasDrawable, hasMixer, sample))
  {
    if sample.imageBuffer.Some? {
      var buffer := sample.imageBuffer.value;
      var pre := When(effects != [] && hasContext, Render(Fold(effects, FromPixelBuffer(buffer)), buffer));
      var draw := When(hasDrawable, Draw(FromPixelBuffer(buffer)));
      var forward := ForwardEvents(sample, buffer, hasMixer);
      ForwardEventsKinds(sample, buffer, hasMixer);
      WhenInPipelineOrder(hasDrawable, Draw(FromPixelBuffer(buffer)), forward);
      WhenInPipelineOrder(effects != [] && hasContext, Render(Fold(effects, FromPixelBuffer(buffer)), buffer), draw + forward);
    }
  }

  /** With effects and a context, the buffer appendSampleBuffer hands to the
      encoder is the very buffer the effect chain's image was rendered into
      just before: the encoder receives the frame with its effects applied. */
  lemma RenderTargetIsEncoded(effects: seq<VisualEffect>, hasDrawable: bool, hasMixer: bool,
                              sample: SampleBuffer)
    requires effects != [] && sample.imageBuffer.Some?
    ensures var trace := AppendSampleBufferEvents(effects, true, hasDrawable, hasMixer, sample);
      exists i, j :: 0 <= i < j < |trace| &&
        trace[i] == Render(Fold(effects, FromPixelBuffer(sample.imageBuffer.value)), sample.imageBuffer.value) &&
        trace[j] == Encode(sample.imageBuffer.value, sample.presentationTimeStamp, sample.duration)
  {
    var buffer := sample.imageBuffer.value;
    var trace := AppendSampleBufferEvents(effects, true, hasDrawable, hasMixer, sample);
    var j := if hasDrawable then 2 else 1;
    assert trace[0] == Render(Fold(effects, FromPixelBuffer(buffer)), buffer);
    assert trace[j] == Encode(buffer, sample.presentationTimeStamp, sample.duration);
  }

  /** appendSampleBufferWithoutDraw: never renders or draws, and makes the
      same encode and record calls as appendSampleBuffer would for that
      sample (none at all without an image buffer), encode before record. */
  lemma AppendSampleBufferWithoutDrawCalls(effects: seq<VisualEffect>, hasContext: bool, hasDrawable: bool,
                                           hasMixer: bool, sample: SampleBuffer)
    ensures sample.imageBuffer.None? ==> AppendSampleBufferWithoutDrawEvents(hasMixer, sample) == []
    ensures OfKind(AppendSampleBufferWithoutDrawEvents(hasMixer, sample), RenderKind) == []
    ensures OfKind(AppendSampleBufferWithoutDrawEvents(hasMixer, sample), DrawKind) == []
    ensures OfKind(AppendSampleBufferWithoutDrawEvents(hasMixer, sample), EncodeKind)
         == OfKind(AppendSampleBufferEvents(effects, hasContext, hasDrawable, hasMixer, sample), EncodeKind)
    ensures OfKind(AppendSampleBufferWithoutDrawEvents(hasMixer, sample), RecordKind)
         == OfKind(AppendSampleBufferEvents(effects, hasContext, hasDrawable, hasMixer, sample), RecordKind)
    ensures InPipelineOrder(AppendSampleBufferWithoutDrawEvents(hasMixer, sample))
  {
    AppendSampleBufferCalls(effects, hasContext, hasDrawable, hasMixer, sample);
    if sample.imageBuffer.Some? {
      ForwardEventsKinds(sample, sample.imageBuffer.value, hasMixer);
    }
  }

  /** The calls made for a run of samples handed to appendSampleBuffer one
      after another, with the same effects and collaborators. */
  function AppendAll(effects: seq<VisualEffect>, hasContext: bool, hasDrawable: bool,
                     hasMixer: bool, samples: seq<SampleBuffer>): seq<Event>
  {
    if samples == [] then []
    else AppendAll(effects, hasContext, hasDrawable, hasMixer, samples[..|samples| - 1])
         + AppendSampleBufferEvents(effects, hasContext, hasDrawable, hasMixer, samples[|samples| - 1])
  }

  /** One encode request per sample that carries an image buffer, in capture order. */
  function EncodeRequests(samples: seq<SampleBuffer>): seq<Event>
  {
    if samples == [] then []
    else
      var last := samples[|samples| - 1];
      EncodeRequests(samples[..|samples| - 1])
      + match last.imageBuffer
        case None => []
        case Some(buffer) => [Encode(buffer, last.presentationTimeStamp, last.duration)]
  }

  /** One record request per sample that carries an image buffer, in capture order. */
  function RecordRequests(samples: seq<SampleBuffer>): seq<Event>
  {
    if samples == [] then []
    else
      var last := samples[|samples| - 1];
      RecordRequests(samples[..|samples| - 1]) + if last.imageBuffer.Some? then [Record(last)] else []
  }

  /** Over a run of samples the encoder receives exactly one call per sample
      that has an image buffer, in capture order and with that sample's
      timing, and the recorder (when there is a mixer) the same samples in
      the same order; samples without an image buffer reach neither. */
  lemma {:induction false} AppendAllForwardsInCaptureOrder(effects: seq<VisualEffect>, hasContext: bool,
                                                           hasDrawable: bool, hasMixer: bool,
                                                           samples: seq<SampleBuffer>)
    ensures OfKind(AppendAll(effects, hasContext, hasDrawable, hasMixer, samples), EncodeKind) == EncodeRequests(samples)
    ensures OfKind(AppendAll(effects, hasContext, hasDrawable, hasMixer, samples), RecordKind)
         == if hasMixer then RecordRequests(samples) else []
    ensures |EncodeRequests(samples)| == |RecordRequests(samples)|
    decreases |samples|
  {
    if samples != [] {
      var init := samples[..|samples| - 1];
      var last := samples[|samples| - 1];
      AppendAllForwardsInCaptureOrder(effects, hasContext, hasDrawable, hasMixer, init);
      var step := AppendSampleBufferEvents(effects, hasContext, hasDrawable, hasMixer, last);
      OfKindConcat(AppendAll(effects, hasContext, hasDrawable, hasMixer, init), step, EncodeKind);
      OfKindConcat(AppendAll(effects, hasContext, hasDrawable, hasMixer, init), step, RecordKind);
      AppendSampleBufferCalls(effects, hasContext, hasDrawable, hasMixer, last);
    }
  }
}
