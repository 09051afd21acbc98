/** Value types shared by the video pipeline: pixel buffers, sample buffers,
    format descriptions, visual effects and the (uninterpreted) images that
    effects produce. */
module Media {

  datatype Option<+T> = None | Some(value: T)

  /** A CVPixelBuffer, identified by the object it is. */
  datatype PixelBuffer = PixelBuffer(id: nat)

  /** A CMSampleBuffer as the video path sees it: an image buffer that may be
      missing, a presentation timestamp and a duration (CMTime values, in the
      sample's own timescale). */
  datatype SampleBuffer = SampleBuffer(imageBuffer: Option<PixelBuffer>, presentationTimeStamp: int, duration: int)

  /** A CMVideoFormatDescription, identified by the object it is. */
  datatype FormatDescription = FormatDescription(id: nat)

  /** A VisualEffect. The registry compares effects with `==`; the model
      compares their identity `id`. */
  datatype VisualEffect = VisualEffect(id: nat)

  /** A CIImage. `execute` of an effect is left uninterpreted: the image an
      effect returns is the term recording which effect ran on which input,
      so two images are equal only when built from the same buffer by the
      same effects in the same order. */
  datatype Image = FromPixelBuffer(buffer: PixelBuffer) | Executed(effect: VisualEffect, input: Image)

  /** VisualEffect.execute(image). */
  function Execute(effect: VisualEffect, image: Image): Image
  {
    Executed(effect, image)
  }
}
