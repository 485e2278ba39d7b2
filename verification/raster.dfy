/**
  Images as grids of RGBA pixels, and the flat RGBA byte buffer (a canvas's
  image data) the background cut-out works on. Covers sub-rectangle
  extraction (drawing a region of one canvas onto a fresh one), the
  confidence-mask threshold, and the brush's disc stamp.
 */
module Raster {
  import opened Base

  datatype Pixel = Pixel(red: byte, green: byte, blue: byte, alpha: byte)

  /** The transparent black of a fresh canvas. */
  const Transparent := Pixel(0, 0, 0, 0)

  /** The brush's paint colour. */
  const Red := Pixel(255, 0, 0, 255)

  /** `rows[y][x]` is the pixel in column x of row y. */
  datatype Image = Image(width: nat, height: nat, rows: seq<seq<Pixel>>)

  predicate WellFormed(img: Image) {
    |img.rows| == img.height && forall y :: 0 <= y < img.height ==> |img.rows[y]| == img.width
  }

  function At(img: Image, x: nat, y: nat): Pixel
    requires WellFormed(img) && x < img.width && y < img.height
  {
    img.rows[y][x]
  }

  /**
    Copies the `width` x `height` region of `src` whose top-left corner is
    (x, y) onto a fresh canvas of that size; parts of the region outside `src`
    stay transparent.
   */
  function Extract(src: Image, x: int, y: int, width: nat, height: nat): (r: Image)
    requires WellFormed(src)
    ensures WellFormed(r) && r.width == width && r.height == height
    ensures forall i: nat, j: nat | i < width && j < height ::
              At(r, i, j) == if 0 <= x + i < src.width && 0 <= y + j < src.height
                             then At(src, x + i, y + j) else Transparent
  {
    Image(width, height, seq(height, j requires 0 <= j < height =>
      seq(width, i requires 0 <= i < width =>
        if 0 <= x + i < src.width && 0 <= y + j < src.height then src.rows[y + j][x + i] else Transparent)))
  }

  /** Extracting the whole of an image copies it unchanged. */
  lemma ExtractWhole(img: Image)
    requires WellFormed(img)
    ensures Extract(img, 0, 0, img.width, img.height) == img
  {
    var r := Extract(img, 0, 0, img.width, img.height);
    forall j | 0 <= j < img.height
      ensures r.rows[j] == img.rows[j]
    {
      assert forall i :: 0 <= i < img.width ==> At(r, i, j) == At(img, i, j);
    }
  }

  /** Extracting a region of an extracted region is one extraction, wherever both lie inside. */
  lemma ExtractOfExtract(img: Image, x: nat, y: nat, w: nat, h: nat, x2: nat, y2: nat, w2: nat, h2: nat)
    requires WellFormed(img)
    requires x + w <= img.width && y + h <= img.height
    requires x2 + w2 <= w && y2 + h2 <= h
    ensures Extract(Extract(img, x, y, w, h), x2, y2, w2, h2) == Extract(img, x + x2, y + y2, w2, h2)
  {
    var a := Extract(Extract(img, x, y, w, h), x2, y2, w2, h2);
    var b := Extract(img, x + x2, y + y2, w2, h2);
    forall j | 0 <= j < h2
      ensures a.rows[j] == b.rows[j]
    {
      assert forall i :: 0 <= i < w2 ==> At(a, i, j) == At(b, i, j);
    }
  }

  /** Position of the alpha byte within each four-byte pixel of a byte buffer. */
  const AlphaChannel: nat := 3

  /**
    The reference result of the confidence-mask threshold on a byte buffer:
    the alpha byte of every pixel whose confidence is below the threshold
    becomes zero; a confidence past the end of the buffer is ignored, like a
    write past the end of a typed array.
   */
  function Masked(data: seq<byte>, mask: seq<real>, threshold: real): seq<byte> {
    seq(|data|, k requires 0 <= k < |data| =>
      if k % 4 == AlphaChannel && k / 4 < |mask| && mask[k / 4] < threshold then 0 else data[k])
  }

  /** The threshold loop over the pixel buffer, writing into a copy. */
  method ClearBelowThreshold(data: seq<byte>, mask: seq<real>, threshold: real) returns (out: seq<byte>)
    ensures |out| == |data|
    ensures forall i :: 0 <= i < |mask| && 4 * i + 3 < |data| && mask[i] < threshold ==> out[4 * i + 3] == 0
    ensures forall k :: 0 <= k < |data| && !(k % 4 == 3 && k / 4 < |mask| && mask[k / 4] < threshold) ==>
              out[k] == data[k]
    ensures out == Masked(data, mask, threshold)
  {
    var buf := new byte[|data|](k requires 0 <= k < |data| => data[k]);
    var i := 0;
    while i < |mask|
      invariant 0 <= i <= |mask|
      invariant buf.Length == |data|
      invariant forall k :: 0 <= k < buf.Length ==>
                  buf[k] == if k % 4 == 3 && k / 4 < i && mask[k / 4] < threshold then 0 else data[k]
    {
      if mask[i] < threshold && 4 * i + 3 < buf.Length {
        buf[4 * i + 3] := 0;
      }
      i := i + 1;
    }
    out := buf[..];
    forall i | 0 <= i < |mask| && 4 * i + 3 < |data| && mask[i] < threshold
      ensures out[4 * i + 3] == 0
    {
      assert (4 * i + 3) % 4 == 3 && (4 * i + 3) / 4 == i;
    }
  }

  /** A stricter threshold clears every alpha byte a looser one clears. */
  lemma StricterClearsMore(data: seq<byte>, mask: seq<real>, loose: real, strict: real)
    requires loose <= strict
    ensures var a := Masked(data, mask, loose);
            var b := Masked(data, mask, strict);
            forall k :: 0 <= k < |data| && a[k] == 0 ==> b[k] == 0
  {
  }

  /** Thresholding twice with the same mask is thresholding once. */
  lemma MaskedIdempotent(data: seq<byte>, mask: seq<real>, threshold: real)
    ensures Masked(Masked(data, mask, threshold), mask, threshold) == Masked(data, mask, threshold)
  {
  }

  lemma MulMonotone(a: nat, b: nat, w: nat)
    requires a <= b
    ensures a * w <= b * w
    decreases b - a
  {
    if a < b {
      MulMonotone(a, b - 1, w);
      assert (b - 1) * w + w == b * w;
    }
  }

  lemma PixelIndexInBounds(width: nat, height: nat, x: nat, y: nat)
    requires x < width && y < height
    ensures y * width + x < width * height
  {
    MulMonotone(y + 1, height, width);
  }

  lemma PixelIndexDecode(width: nat, height: nat, p: nat)
    requires p < width * height
    ensures width > 0 && p % width < width && p / width < height
  {
    if height <= p / width {
      MulMonotone(height, p / width, width);
    }
  }

  /** A canvas's image data: the pixels' bytes, row by row, red first. */
  function ImageData(img: Image): (data: seq<byte>)
    requires WellFormed(img)
    ensures |data| == 4 * (img.width * img.height)
  {
    seq(4 * (img.width * img.height), k requires 0 <= k < 4 * (img.width * img.height) =>
      PixelIndexDecode(img.width, img.height, k / 4);
      var px := At(img, (k / 4) % img.width, (k / 4) / img.width);
      var c := k % 4;
      if c == 0 then px.red else if c == 1 then px.green else if c == 2 then px.blue else px.alpha)
  }

  /** Writes image data back as an image of the given size. */
  function FromImageData(width: nat, height: nat, data: seq<byte>): (img: Image)
    requires |data| == 4 * (width * height)
    ensures WellFormed(img) && img.width == width && img.height == height
  {
    Image(width, height, seq(height, y requires 0 <= y < height =>
      seq(width, x requires 0 <= x < width =>
        PixelIndexInBounds(width, height, x, y);
        var p := y * width + x;
        Pixel(data[4 * p], data[4 * p + 1], data[4 * p + 2], data[4 * p + 3]))))
  }

  /** A row-major pixel index decodes back to its column and row. */
  lemma IndexRoundTrip(width: nat, x: nat, y: nat)
    requires x < width
    ensures (y * width + x) / width == y && (y * width + x) % width == x
  {
    var p := y * width + x;
    var q := p / width;
    var r := p % width;
    assert q * width + r == p;
    if q < y {
      MulMonotone(q + 1, y, width);
    } else if q > y {
      MulMonotone(y + 1, q, width);
    }
  }

  /** Two well-formed images with the same size and the same pixels are the same image. */
  lemma SamePixels(a: Image, b: Image)
    requires WellFormed(a) && WellFormed(b) && a.width == b.width && a.height == b.height
    requires forall x: nat, y: nat | x < a.width && y < a.height :: At(a, x, y) == At(b, x, y)
    ensures a == b
  {
    forall y | 0 <= y < a.height
      ensures a.rows[y] == b.rows[y]
    {
      assert forall x | 0 <= x < a.width :: a.rows[y][x] == At(a, x, y);
    }
  }

  /**
    Background removal at one pixel: reading the image data out, thresholding
    it and writing it back clears that pixel's alpha exactly when its
    confidence (row-major, one per pixel) is below the threshold, and keeps
    everything else.
   */
  lemma MaskedPixel(img: Image, mask: seq<real>, threshold: real, x: nat, y: nat)
    requires WellFormed(img) && x < img.width && y < img.height
    ensures var out := FromImageData(img.width, img.height, Masked(ImageData(img), mask, threshold));
            var p := y * img.width + x;
            At(out, x, y) == if p < |mask| && mask[p] < threshold then At(img, x, y).(alpha := 0) else At(img, x, y)
  {
    PixelIndexInBounds(img.width, img.height, x, y);
    IndexRoundTrip(img.width, x, y);
    var p := y * img.width + x;
    assert (4 * p) / 4 == p && (4 * p + 1) / 4 == p && (4 * p + 2) / 4 == p && (4 * p + 3) / 4 == p;
    assert (4 * p) % 4 == 0 && (4 * p + 1) % 4 == 1 && (4 * p + 2) % 4 == 2 && (4 * p + 3) % 4 == 3;
  }

  /** The whole image after background removal, pixel by pixel. */
  lemma MaskedImage(img: Image, mask: seq<real>, threshold: real)
    requires WellFormed(img)
    ensures var out := FromImageData(img.width, img.height, Masked(ImageData(img), mask, threshold));
            forall x: nat, y: nat | x < img.width && y < img.height ::
              At(out, x, y) == if y * img.width + x < |mask| && mask[y * img.width + x] < threshold
                               then At(img, x, y).(alpha := 0) else At(img, x, y)
  {
    forall x: nat, y: nat | x < img.width && y < img.height
      ensures var out := FromImageData(img.width, img.height, Masked(ImageData(img), mask, threshold));
              At(out, x, y) == if y * img.width + x < |mask| && mask[y * img.width + x] < threshold
                               then At(img, x, y).(alpha := 0) else At(img, x, y)
    {
      MaskedPixel(img, mask, threshold, x, y);
    }
  }

  /**
    Background removal on a picture: its image data with the alpha of every
    pixel below the confidence threshold cleared, written back as an image.
   */
  function RemovedBackground(img: Image, mask: seq<real>, threshold: real): (r: Image)
    requires WellFormed(img)
    ensures WellFormed(r) && r.width == img.width && r.height == img.height
    ensures forall x: nat, y: nat | x < img.width && y < img.height ::
              At(r, x, y) == if y * img.width + x < |mask| && mask[y * img.width + x] < threshold
                             then At(img, x, y).(alpha := 0) else At(img, x, y)
  {
    MaskedImage(img, mask, threshold);
    FromImageData(img.width, img.height, Masked(ImageData(img), mask, threshold))
  }

  /** Reading an image's data out and writing it back gives the same image. */
  lemma ImageDataRoundTrip(img: Image)
    requires WellFormed(img)
    ensures FromImageData(img.width, img.height, ImageData(img)) == img
  {
    var data := ImageData(img);
    assert Masked(data, [], 0.0) == data;
    MaskedImage(img, [], 0.0);
    SamePixels(FromImageData(img.width, img.height, data), img);
  }

  /** What one brush dab does: clear alpha, or paint opaque red. */
  datatype BrushMode = Erase | Paint

  function Sq(a: real): real { a * a }

  /** Squared distance from the centre of pixel (x, y) to the point (cx, cy). */
  function CentreDistance(cx: real, cy: real, x: nat, y: nat): real {
    Sq(x as real + 0.5 - cx) + Sq(y as real + 0.5 - cy)
  }

  /** A pixel whose centre is within `radius - 1` lies wholly inside the disc (half its diagonal is under 1). */
  predicate WhollyInside(cx: real, cy: real, radius: real, x: nat, y: nat) {
    radius >= 1.0 && CentreDistance(cx, cy, x, y) <= Sq(radius - 1.0)
  }

  /** A pixel whose centre is beyond `radius + 1` lies wholly outside the disc. */
  predicate WhollyOutside(cx: real, cy: real, radius: real, x: nat, y: nat) {
    CentreDistance(cx, cy, x, y) > Sq(radius + 1.0)
  }

  /**
    The guarantee of one disc stamp: pixels wholly inside the disc are erased
    (alpha zero) or painted red, pixels wholly outside are untouched; the
    anti-aliased rim in between is left unspecified.
   */
  predicate StampOutcome(before: Image, after: Image, cx: real, cy: real, radius: real, mode: BrushMode)
    requires WellFormed(before) && WellFormed(after)
  {
    && after.width == before.width && after.height == before.height
    && forall x: nat, y: nat | x < before.width && y < before.height ::
         && (WhollyInside(cx, cy, radius, x, y) && mode == Erase ==> At(after, x, y).alpha == 0)
         && (WhollyInside(cx, cy, radius, x, y) && mode == Paint ==> At(after, x, y) == Red)
         && (WhollyOutside(cx, cy, radius, x, y) ==> At(after, x, y) == At(before, x, y))
  }

  /** A pixel under the brush. */
  function Dab(mode: BrushMode, px: Pixel): Pixel {
    match mode
    case Erase => px.(alpha := 0)
    case Paint => Red
  }

  lemma SquareMonotone(a: real, b: real)
    requires 0.0 <= a <= b
    ensures Sq(a) <= Sq(b)
  {
    assert a * a <= a * b <= b * b;
  }

  /** The rim around a disc of `radius` lies between `radius - 1` and `radius + 1`. */
  lemma RimBounds(radius: real)
    requires radius >= 0.0
    ensures Sq(radius) <= Sq(radius + 1.0)
    ensures radius >= 1.0 ==> Sq(radius - 1.0) <= Sq(radius)
  {
    SquareMonotone(radius, radius + 1.0);
    if radius >= 1.0 {
      SquareMonotone(radius - 1.0, radius);
    }
  }

  /**
    One brush dab of diameter `size` at (cx, cy). This model covers exactly the
    pixels whose centre lies in the disc, one of the outcomes `StampOutcome` allows.
   */
  function Stamp(img: Image, cx: real, cy: real, size: nat, mode: BrushMode): (r: Image)
    requires WellFormed(img)
    ensures WellFormed(r)
    ensures StampOutcome(img, r, cx, cy, size as real / 2.0, mode)
  {
    var radius := size as real / 2.0;
    RimBounds(radius);
    Image(img.width, img.height, seq(img.height, y requires 0 <= y < img.height =>
      seq(img.width, x requires 0 <= x < img.width =>
        if CentreDistance(cx, cy, x, y) <= Sq(radius) then Dab(mode, img.rows[y][x]) else img.rows[y][x])))
  }
}
