/** VideoIOComponent: the object that owns the effect list, receives captured
    samples and hands them to the renderer, the drawable, the encoder and the
    recorder. The calls it makes into those collaborators are recorded, in
    order, in `trace`. */
module VideoIO {
  import opened Media
  import opened EffectChain
  import opened Dispatch

  /** The part of H264Decoder that the component writes to. */
  class H264Decoder {
    var formatDescription: Option<FormatDescription>

    constructor ()
      ensures formatDescription == None
    {
      formatDescription := None;
    }
  }

  class VideoIOComponent {
    /** Whether the optional collaborators `context` (CIContext),
        `drawable` and the weak `mixer` reference are set. */
    var hasContext: bool
    var hasDrawable: bool
    var hasMixer: bool

    var effects: seq<VisualEffect>
    var formatDescription: Option<FormatDescription>
    const decoder: H264Decoder

    /** The collaborator calls made so far, oldest first. */
    var trace: seq<Event>

    /** init(mixer:): attached to a mixer, no context, no drawable, no effects. */
    constructor ()
      ensures hasMixer && !hasContext && !hasDrawable
      ensures effects == [] && trace == []
      ensures formatDescription == None && fresh(decoder) && decoder.formatDescription == None
    {
      hasContext, hasDrawable, hasMixer := false, false, true;
      effects := [];
      formatDescription := None;
      decoder := new H264Decoder();
      trace := [];
    }

    /** The `formatDescription` property with its didSet observer: the new
        value is passed on to the decoder. */
    method SetFormatDescription(value: Option<FormatDescription>)
      modifies this`formatDescription, decoder`formatDescription
      ensures formatDescription == value && decoder.formatDescription == value
    {
      formatDescription := value;
      decoder.formatDescription := formatDescription;
    }

    /** registerEffect(_:index:): refuses an effect already in the list;
        otherwise appends it (negative index) or inserts it at `index`. */
    method RegisterEffectAt(effect: VisualEffect, index: int) returns (ok: bool)
      requires effect in effects || index <= |effects|
      modifies this`effects
      ensures ok <==> effect !in old(effects)
      ensures !ok ==> effects == old(effects)
      ensures ok ==> effects == Insert(old(effects), effect, index)
      ensures NoDuplicates(old(effects)) ==> NoDuplicates(effects)
    {
      if effect in effects {
        return false;
      }
      InsertKeepsUnique(effects, effect, index);
      if index < 0 {
        effects := effects + [effect];
      } else {
        effects := effects[..index] + [effect] + effects[index..];
      }
      return true;
    }

    /** registerEffect(_:): the same as registering at index -1, that is,
        appending. */
    method RegisterEffect(effect: VisualEffect) returns (ok: bool)
      modifies this`effects
      ensures ok <==> effect !in old(effects)
      ensures effects == if ok then old(effects) + [effect] else old(effects)
      ensures NoDuplicates(old(effects)) ==> NoDuplicates(effects)
    {
      ok := RegisterEffectAt(effect, -1);
    }

    /** unregisterEffect(_:): removes the first occurrence of `effect`;
        reports whether there was one. */
    method UnregisterEffect(effect: VisualEffect) returns (ok: bool)
      modifies this`effects
      ensures ok <==> effect in old(effects)
      ensures effects == Remove(old(effects), effect)
      ensures !ok ==> effects == old(effects)
      ensures NoDuplicates(old(effects)) ==> NoDuplicates(effects) && effect !in effects
    {
      RemoveDropsEffect(effects, effect);
      match FirstIndex(effects, effect)
      case Some(i) =>
        effects := effects[..i] + effects[i + 1..];
        return true;
      case None =>
        return false;
    }

    /** effect(_:): wraps the buffer in an image and runs every registered
        effect on it, first to last. */
    method Effect(buffer: PixelBuffer) returns (image: Image)
      ensures image == Fold(effects, FromPixelBuffer(buffer))
      ensures AppliedEffects(image) == effects && SourceBuffer(image) == buffer
    {
      image := FromPixelBuffer(buffer);
      for i := 0 to |effects|
        invariant image == Fold(effects[..i], FromPixelBuffer(buffer))
      {
        FoldAppend(effects[..i], effects[i], FromPixelBuffer(buffer));
        assert effects[..i + 1] == effects[..i] + [effects[i]];
        image := Execute(effects[i], image);
      }
      assert effects[..|effects|] == effects;
      FoldOrder(effects, buffer);
    }

    /** encoder.encodeImageBuffer followed by mixer?.recorder.appendSampleBuffer. */
    method Forward(sample: SampleBuffer, buffer: PixelBuffer)
      modifies this`trace
      ensures trace == old(trace) + ForwardEvents(sample, buffer, hasMixer)
    {
      trace := trace + [Encode(buffer, sample.presentationTimeStamp, sample.duration)];
      if hasMixer {
        trace := trace + [Record(sample)];
      }
    }

    /** appendSampleBuffer(_:): drops a sample without an image buffer; with
        effects, renders the effect chain's image into the sample's buffer,
        draws that buffer, then encodes and records; without effects, draws
        the buffer as captured, then encodes and records. */
    method AppendSampleBuffer(sample: SampleBuffer)
      modifies this`trace
      ensures trace == old(trace) + AppendSampleBufferEvents(effects, hasContext, hasDrawable, hasMixer, sample)
    {
      if sample.imageBuffer.None? {
        return;
      }
      var buffer := sample.imageBuffer.value;
      if effects != [] {
        var image := Effect(buffer);
        if hasContext {
          trace := trace + [Render(image, buffer)];
        }
        if hasDrawable {
          trace := trace + [Draw(FromPixelBuffer(buffer))];
        }
        Forward(sample, buffer);
      } else {
        if hasDrawable {
          trace := trace + [Draw(FromPixelBuffer(buffer))];
        }
        Forward(sample, buffer);
      }
    }

    /** appendSampleBufferWithoutDraw(_:): drops a sample without an image
        buffer; otherwise only encodes and records. */
    method AppendSampleBufferWithoutDraw(sample: SampleBuffer)
      modifies this`trace
      ensures trace == old(trace) + AppendSampleBufferWithoutDrawEvents(hasMixer, sample)
    {
      if sample.imageBuffer.None? {
        return;
      }
      Forward(sample, sample.imageBuffer.value);
    }

    /** captureOutput(_:didOutput:from:): the capture delegate passes every
        sample to appendSampleBuffer. */
    method CaptureOutput(sample: SampleBuffer)
      modifies this`trace
      ensures trace == old(trace) + AppendSampleBufferEvents(effects, hasContext, hasDrawable, hasMixer, sample)
    {
      AppendSampleBuffer(sample);
    }

    /** drawImage(_:): hands the image to the drawable, if there is one. */
    method DrawImage(image: Image)
      modifies this`trace
      ensures trace == old(trace) + When(hasDrawable, Draw(image))
    {
      if hasDrawable {
        trace := trace + [Draw(image)];
      }
    }

    /** The DisplayLinkedQueue delegate hook queue(_:): draws the dequeued
        sample's image buffer when there is a drawable. The buffer is
        force-unwrapped only inside the optional-chained call, so it must be
        present only when the drawable is set. */
    method Queue(sample: SampleBuffer)
      requires hasDrawable ==> sample.imageBuffer.Some?
      modifies this`trace
      ensures !hasDrawable ==> trace == old(trace)
      ensures hasDrawable ==> trace == old(trace) + [Draw(FromPixelBuffer(sample.imageBuffer.value))]
    {
      if hasDrawable {
        trace := trace + [Draw(FromPixelBuffer(sample.imageBuffer.value))];
      }
    }
  }

  /** A client of the effect registry: effects A then B run as B(A(frame)),
      A cannot be registered twice, and after unregistering A only B runs. */
  method EffectScenario(a: VisualEffect, b: VisualEffect, buffer: PixelBuffer)
    requires a != b
  {
    RegisterThenUnregister(a, b, buffer);
    var component := new VideoIOComponent();
    var ok := component.RegisterEffect(a);
    assert ok && component.effects == [a];
    ok := component.RegisterEffect(b);
    assert ok && component.effects == [a, b] == Insert(Insert([], a, -1), b, -1);
    ok := component.RegisterEffect(a);
    assert !ok;
    var image := component.Effect(buffer);
    assert image == Execute(b, Execute(a, FromPixelBuffer(buffer)));
    ok := component.UnregisterEffect(a);
    assert ok;
    image := component.Effect(buffer);
    assert image == Execute(b, FromPixelBuffer(buffer));
    ok := component.UnregisterEffect(a);
    assert !ok;
  }

  /** A client of the ingestion path: a sample without an image buffer
      reaches no collaborator, and with no drawable the playback queue may
      release such a sample without drawing anything. */
  method DropScenario(pts: int, duration: int)
  {
    var component := new VideoIOComponent();
    component.Queue(SampleBuffer(None, pts, duration));
    assert component.trace == [];
    component.hasDrawable := true;
    component.AppendSampleBuffer(SampleBuffer(None, pts, duration));
    assert component.trace == [];
  }
}
