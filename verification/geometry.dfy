/** Letterbox geometry shared by both detectors: fit the frame inside a D x D square, then pad to exactly D x D. */
module Geometry {
  import opened Wrappers
  import opened Numeric
  import opened Imaging

  /** Target side of the Faster R-CNN input. */
  const FasterRcnnDimension: nat := 800
  /** Target side of the YOLOv3 input (`input_dimension`). */
  const YoloDimension: nat := 416

  /** `Math.Min(D / W, D / H)` in exact arithmetic: the largest scale that fits the frame in D x D. */
  function FitRatio(d: nat, w: nat, h: nat): (ratio: real)
    requires w > 0 && h > 0
    ensures ratio >= 0.0
    ensures ratio * w as real <= d as real && ratio * h as real <= d as real
    ensures ratio * w as real == d as real || ratio * h as real == d as real
  {
    var rw := d as real / w as real;
    var rh := d as real / h as real;
    assert rw * w as real == d as real;
    assert rh * h as real == d as real;
    assert rw <= rh ==> rw * h as real <= rh * h as real;
    assert rh <= rw ==> rh * w as real <= rw * w as real;
    Min(rw, rh)
  }

  /** The `Size(ratio * W, ratio * H)` handed to `Cv2.Resize`; the constructor truncates each side. */
  function ResizedSize(d: nat, w: nat, h: nat): (size: (nat, nat))
    requires w > 0 && h > 0
    ensures size.0 <= d && size.1 <= d
    ensures size.0 == d || size.1 == d
  {
    var ratio := FitRatio(d, w, h);
    var rw := Trunc(ratio * w as real);
    var rh := Trunc(ratio * h as real);
    (rw, rh)
  }

  /** The two border widths along one axis, `((D - s) / 2, (D + 1 - s) / 2)` with C# division. */
  function Border(d: nat, side: int): (b: (int, int))
    ensures 0 <= side <= d ==> b.0 >= 0 && b.1 >= 0
    ensures 0 <= side <= d ==> side + b.0 + b.1 == d
  {
    (Half(d - side), Half(d + 1 - side))
  }

  /** For a side that fits, the before-border is the floor of half the slack and the after-border
      takes the odd pixel: they differ by one exactly when the slack is odd. */
  lemma BorderSplit(d: nat, side: int)
    requires 0 <= side <= d
    ensures Border(d, side).0 == (d - side) / 2
    ensures Border(d, side).1 == Border(d, side).0 + (d - side) % 2
    ensures Border(d, side).1 == Border(d, side).0 + 1 <==> (d - side) % 2 == 1
  {
  }

  /** Resize to fit and pad with black, as `Preprocess` does to the frame in place. Fails as OpenCV
      does when the decoded frame is empty or a resized side truncates to zero. */
  function Letterbox(d: nat, img: Image, resample: Resampler): (r: Result<Image>)
    ensures r.Success? <==>
              img.width > 0 && img.height > 0 &&
              ResizedSize(d, img.width, img.height).0 > 0 && ResizedSize(d, img.width, img.height).1 > 0
    ensures r.Success? ==> r.value.width == d && r.value.height == d
    ensures r.Success? ==>
              var (w, h) := ResizedSize(d, img.width, img.height);
              var top := (d - h) / 2;
              var left := (d - w) / 2;
              forall y: nat, x: nat | y < d && x < d ::
                r.value.pixel(y, x) ==
                  if top <= y < top + h && left <= x < left + w
                  then resample(img, w, h)(y - top, x - left) else Black
  {
    if img.width == 0 || img.height == 0 then Failure(EmptyImage)
    else
      var (w, h) := ResizedSize(d, img.width, img.height);
      if w == 0 || h == 0 then Failure(EmptyImage)
      else
        var resized := Image(w, h, resample(img, w, h));
        var (top, bottom) := Border(d, h);
        var (left, right) := Border(d, w);
        BorderSplit(d, h);
        BorderSplit(d, w);
        Success(Pad(resized, top, bottom, left, right))
  }

  /** A 1000 x 500 frame: ratio 0.8, resized to 800 x 400, padded 200 above and 200 below; a resized
      height of 399 is padded 200 above and 201 below. */
  lemma WorkedExamples()
    ensures FitRatio(800, 1000, 500) == 0.8
    ensures ResizedSize(800, 1000, 500) == (800, 400)
    ensures Border(800, 400) == (200, 200) && Border(800, 800) == (0, 0)
    ensures Border(800, 399) == (200, 201)
  {
    assert (800 as real / 1000 as real) * 500 as real == 400.0;
  }
}
