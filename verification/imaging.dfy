/** Colour frames as OpenCV holds them after decode: three byte channels per pixel, addressed (row, column).
    A one-channel grayscale frame is not represented. */
module Imaging {

  newtype byte = b: int | 0 <= b < 256

  datatype Pixel = Pixel(c0: byte, c1: byte, c2: byte)

  const Black := Pixel(0, 0, 0)

  /** Byte `c` of a pixel, the value `pixel[c]` of an OpenCV `Vec3b`; only 0, 1, 2 are read. */
  function Channel(p: Pixel, c: nat): byte {
    if c == 0 then p.c0 else if c == 1 then p.c1 else p.c2
  }

  /** An image of `width` columns and `height` rows; `pixel(y, x)` is meaningful for y < height, x < width. */
  datatype Image = Image(width: nat, height: nat, pixel: (nat, nat) -> Pixel)

  /** Native resampling (`Cv2.Resize`): gives the pixels of the image resized to (width, height). */
  type Resampler = (Image, nat, nat) -> ((nat, nat) -> Pixel)

  /** `Cv2.CopyMakeBorder` with a constant black border of the given widths. */
  function Pad(img: Image, top: nat, bottom: nat, left: nat, right: nat): (r: Image)
    ensures r.width == left + img.width + right
    ensures r.height == top + img.height + bottom
    ensures forall y: nat, x: nat | top <= y < top + img.height && left <= x < left + img.width ::
              r.pixel(y, x) == img.pixel(y - top, x - left)
    ensures forall y: nat, x: nat | !(top <= y < top + img.height && left <= x < left + img.width) ::
              r.pixel(y, x) == Black
  {
    Image(left + img.width + right, top + img.height + bottom,
          (y: nat, x: nat) =>
            if top <= y < top + img.height && left <= x < left + img.width
            then img.pixel(y - top, x - left) else Black)
  }
}
