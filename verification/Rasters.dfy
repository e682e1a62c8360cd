/** Scaling, fitting and tiling of rasters (src/raster.rs). */
module Rasters {
  import opened Grids

  const U32 := 0x1_0000_0000

  type Pixel = p: int | 0 <= p < 256

  datatype Raster = Raster(width: nat, height: nat, pixels: seq<Pixel>) {

    /** One byte a pixel, row by row; the renderer keeps the area far below 2^32. */
    predicate Valid() {
      |pixels| == height * width && width < U32 && height < U32 && height * width < U32
    }

    function At(x: nat, y: nat): Pixel
      requires Valid() && x < width && y < height
    {
      CellInside(x, y, width, height);
      pixels[y * width + x]
    }
  }

  /** `Overflow` stands for the panic of arithmetic out of range, and `Mismatch` for
      that of a failed debug assertion. */
  datatype Error = Invalid | Overflow | Mismatch

  datatype Result<+T> = Ok(value: T) | Err(error: Error)

  // ---------------------------------------------------------------- scaling

  /** The height that keeps the proportions, rounded to the nearest row. */
  function Rounded(w: nat, h: nat, width: nat): nat
    requires w > 0
  {
    (h * width + w / 2) / w
  }

  /** At least one row, cut to 32 bits. */
  function ScaledHeight(w: nat, h: nat, width: nat): (height: nat)
    requires w > 0
    ensures height < U32
  {
    (if Rounded(w, h, width) > 1 then Rounded(w, h, width) else 1) % U32
  }

  /** Source coordinate `s` spans coordinate `x` of the scaled image: the start of `x`,
      on the common scale, lies in the stretch of `s`. */
  predicate Spans(s: nat, x: nat, source: nat, target: nat) {
    s * target <= x * source < s * target + target
  }

  /** The source coordinate that a coordinate of the scaled image samples. */
  function Sampled(x: nat, source: nat, target: nat): (s: nat)
    requires x < target && source > 0
    ensures s < source && Spans(s, x, source, target)
  {
    Quotient(x * source, target, x * source / target);
    SampleInside(x, source, target, x * source / target);
    x * source / target
  }

  /** A coordinate that spans one of the scaled image lies in the source. */
  lemma SampleInside(x: nat, source: nat, target: nat, s: nat)
    requires source > 0 && x < target && Spans(s, x, source, target)
    ensures s < source
  {
    StepsGrow(x, target, source);
    if s > source {
      StepsGrow(source, s, target);
    }
  }

  /** Only one coordinate does. */
  lemma OneSpans(x: nat, source: nat, target: nat, s: nat, other: nat)
    requires Spans(s, x, source, target) && Spans(other, x, source, target)
    ensures s == other
  {
    Quotient(x * source, target, s);
    Quotient(x * source, target, other);
  }

  /** The image scaled by sampling the nearest pixel towards the origin. */
  function Sample(image: Raster, width: nat, height: nat, x: nat, y: nat): Pixel
    requires image.Valid() && image.width > 0 && image.height > 0 && x < width && y < height
  {
    image.At(Sampled(x, image.width, width), Sampled(y, image.height, height))
  }

  lemma SourcePixel(image: Raster, width: nat, height: nat, x: nat, y: nat)
    requires image.Valid() && image.width > 0 && image.height > 0 && x < width && y < height
    ensures var source := Sampled(y, image.height, height) * image.width + Sampled(x, image.width, width);
            source < |image.pixels| && image.pixels[source] == Sample(image, width, height, x, y)
  {
    hide Sampled;
    CellInside(Sampled(x, image.width, width), Sampled(y, image.height, height), image.width, image.height);
  }

  ghost predicate Scales(image: Raster, out: Raster)
    requires image.Valid() && image.width > 0 && image.height > 0
  {
    && out.Valid()
    && forall x: nat, y: nat :: x < out.width && y < out.height ==>
         out.At(x, y) == Sample(image, out.width, out.height, x, y)
  }

  /** Every pixel is the source pixel whose column and row span it. */
  ghost predicate ShowsSource(image: Raster, out: Raster)
    requires image.Valid()
  {
    && out.Valid()
    && forall x: nat, y: nat, column: nat, row: nat ::
         x < out.width && y < out.height && column < image.width && row < image.height
         && Spans(column, x, image.width, out.width) && Spans(row, y, image.height, out.height) ==>
           out.At(x, y) == image.At(column, row)
  }

  lemma ScalesByProportion(image: Raster, out: Raster)
    requires image.Valid() && image.width > 0 && image.height > 0 && Scales(image, out)
    ensures ShowsSource(image, out)
  {
    hide Spans;
    forall x: nat, y: nat, column: nat, row: nat |
      x < out.width && y < out.height && column < image.width && row < image.height
      && Spans(column, x, image.width, out.width) && Spans(row, y, image.height, out.height)
      ensures out.At(x, y) == image.At(column, row)
    {
      OneSpans(x, image.width, out.width, column, Sampled(x, image.width, out.width));
      OneSpans(y, image.height, out.height, row, Sampled(y, image.height, out.height));
    }
  }

  ghost predicate SampledUpTo(image: Raster, width: nat, height: nat, pixels: seq<Pixel>, count: int)
    requires image.Valid() && image.width > 0 && image.height > 0
  {
    |pixels| == height * width && 0 <= count <= |pixels| &&
    forall k: nat :: k < count ==>
      width > 0 && k / width < height && pixels[k] == Sample(image, width, height, k % width, k / width)
  }

  lemma NoneSampled(image: Raster, width: nat, height: nat, pixels: seq<Pixel>)
    requires image.Valid() && image.width > 0 && image.height > 0 && |pixels| == height * width
    ensures SampledUpTo(image, width, height, pixels, 0)
  {
  }

  lemma AllSampled(image: Raster, width: nat, height: nat, pixels: seq<Pixel>)
    requires image.Valid() && image.width > 0 && image.height > 0
    requires width < U32 && height < U32 && height * width < U32
    requires SampledUpTo(image, width, height, pixels, height * width)
    ensures Scales(image, Raster(width, height, pixels))
  {
    var out := Raster(width, height, pixels);
    forall x: nat, y: nat | x < width && y < height
      ensures out.At(x, y) == Sample(image, width, height, x, y)
    {
      CellInside(x, y, width, height);
      Cell(x, y, width);
    }
  }

  lemma OnePixel(image: Raster, width: nat, height: nat, pixels: seq<Pixel>, x: nat, y: nat, pixel: Pixel)
    requires image.Valid() && image.width > 0 && image.height > 0 && x < width && y < height
    requires SampledUpTo(image, width, height, pixels, y * width + x)
    requires pixel == Sample(image, width, height, x, y)
    ensures y * width + x < |pixels|
    ensures SampledUpTo(image, width, height, pixels[y * width + x := pixel], y * width + x + 1)
  {
    CellInside(x, y, width, height);
    Cell(x, y, width);
  }

  method ScaleToWidth(image: Raster, width: nat) returns (result: Result<Raster>)
    requires image.Valid() && width < U32
    ensures result == Err(Invalid) <==> width == 0 || image.width == 0 || image.height == 0
    ensures result == Err(Overflow) <==>
            width > 0 && image.width > 0 && image.height > 0 &&
            ScaledHeight(image.width, image.height, width) * width >= U32
    ensures result != Err(Mismatch)
    ensures result.Ok? ==>
              && image.width > 0 && image.height > 0
              && result.value.width == width
              && result.value.height == ScaledHeight(image.width, image.height, width)
              && Scales(image, result.value) && ShowsSource(image, result.value)
  {
    hide SampledUpTo, Scales, ShowsSource, Sample, Sampled, Spans, ScaledHeight;
    if width == 0 || image.width == 0 || image.height == 0 {
      return Err(Invalid);
    }
    var height := ScaledHeight(image.width, image.height, width);
    if height * width >= U32 {
      return Err(Overflow);
    }
    var pixels := new Pixel[height * width](_ => 0);
    NoneSampled(image, width, height, pixels[..]);
    for y := 0 to height
      invariant SampledUpTo(image, width, height, pixels[..], y * width)
    {
      for x := 0 to width
        invariant SampledUpTo(image, width, height, pixels[..], y * width + x)
      {
        var sourceX := Sampled(x, image.width, width);
        var sourceY := Sampled(y, image.height, height);
        SourcePixel(image, width, height, x, y);
        var pixel := image.pixels[sourceY * image.width + sourceX];
        OnePixel(image, width, height, pixels[..], x, y, pixel);
        ghost var before := pixels[..];
        pixels[y * width + x] := pixel;
        assert pixels[..] == before[y * width + x := pixel];
      }
      assert (y + 1) * width == y * width + width;
    }
    AllSampled(image, width, height, pixels[..]);
    ScalesByProportion(image, Raster(width, height, pixels[..]));
    return Ok(Raster(width, height, pixels[..]));
  }

  /** Unless the height is clamped to one row or cut to 32 bits, the proportions
      are kept to within half a source row. */
  lemma ScalingKeepsProportions(w: nat, h: nat, width: nat)
    requires w > 0 && 1 <= Rounded(w, h, width) < U32
    ensures var height := ScaledHeight(w, h, width);
            h * width - (w + 1) / 2 <= height * w <= h * width + w / 2
  {
  }

  lemma SamplingIsMonotone(a: nat, b: nat, source: nat, target: nat)
    requires a <= b < target && source > 0
    ensures Sampled(a, source, target) <= Sampled(b, source, target)
  {
    assert a * source <= b * source;
    Quotient(a * source, target, b * source / target);
  }

  lemma SamplingTheSameSize(x: nat, size: nat)
    requires x < size
    ensures Sampled(x, size, size) == x
  {
    Division(x * size, size, x, 0);
  }

  lemma SameHeight(w: nat, h: nat)
    requires w > 0 && 0 < h < U32
    ensures ScaledHeight(w, h, w) == h
  {
    Division(h * w + w / 2, w, h, w / 2);
  }

  lemma SamePixel(image: Raster, out: Raster, k: nat)
    requires image.Valid() && image.width > 0 && image.height > 0 && Scales(image, out)
    requires out.width == image.width && out.height == image.height && k < |image.pixels|
    ensures k < |out.pixels| && out.pixels[k] == image.pixels[k]
  {
    CellOf(k, image.width, image.height);
    var x, y := k % image.width, k / image.width;
    SamplingTheSameSize(x, image.width);
    SamplingTheSameSize(y, image.height);
    hide Sampled;
    assert out.At(x, y) == Sample(image, out.width, out.height, x, y) == image.At(x, y);
  }

  /** Scaling to the width an image already has gives the image back. */
  lemma ScalingToTheSameWidth(image: Raster, out: Raster)
    requires image.Valid() && image.width > 0 && image.height > 0 && Scales(image, out)
    requires out.width == image.width && out.height == ScaledHeight(image.width, image.height, image.width)
    ensures out == image
  {
    hide ScaledHeight;
    SameHeight(image.width, image.height);
    forall k: nat | k < |image.pixels| ensures out.pixels[k] == image.pixels[k] {
      SamePixel(image, out, k);
    }
  }

  // ---------------------------------------------------------------- fitting into a box

  /** The size an image is scaled to before it is placed in a box. */
  datatype Size = Size(width: nat, height: nat)

  predicate LimitedByWidth(w: nat, h: nat, width: nat, height: nat) {
    width * h <= height * w
  }

  function Predicted(w: nat, h: nat, width: nat, height: nat): (size: Size)
    requires w > 0 && h > 0
    ensures width < U32 && height < U32 ==> size.width < U32 && size.height < U32
  {
    if LimitedByWidth(w, h, width, height) then Size(width, Rounded(w, h, width) % U32)
    else Size(Rounded(h, w, height) % U32, height)
  }

  function AtLeastOne(n: nat): nat {
    if n == 0 then 1 else n
  }

  /** The height `ScaleToWidth` computes agrees with the predicted one. */
  predicate HeightAgrees(w: nat, h: nat, width: nat, height: nat)
    requires w > 0 && h > 0
  {
    var size := Predicted(w, h, width, height);
    ScaledHeight(w, h, AtLeastOne(size.width)) == AtLeastOne(size.height)
  }

  /** What remains when the width of a height-limited image is rounded. */
  function Remainder(w: nat, h: nat, height: nat): (r: nat)
    requires h > 0
    ensures r < h
  {
    (w * height + h / 2) % h
  }

  lemma WidthLimitedAgrees(w: nat, h: nat, width: nat, height: nat)
    requires 0 < w < U32 && 0 < h < U32 && 0 < width < U32 && 0 < height < U32
    requires LimitedByWidth(w, h, width, height)
    ensures HeightAgrees(w, h, width, height)
    ensures Predicted(w, h, width, height).width == width
    ensures Predicted(w, h, width, height).height <= height
  {
    Quotient(h * width + w / 2, w, height);
  }

  /** The unrounded height of a height-limited image whose width does not vanish. */
  lemma HeightAfterRounding(w: nat, h: nat, height: nat)
    requires w > 0 && h > 0
    ensures Rounded(w, h, Rounded(h, w, height)) == height + (h / 2 + w / 2 - Remainder(w, h, height)) / w
  {
    var sum := w * height + h / 2;
    var rest := h / 2 + w / 2 - sum % h;
    assert h * (sum / h) + w / 2 == height * w + rest;
    assert rest == rest / w * w + rest % w;
    Division(height * w + rest, w, height + rest / w, rest % w);
  }

  lemma VanishingArea(area: nat, h: nat)
    requires h > 0 && (area + h / 2) / h == 0
    ensures area + h / 2 < h && (area + h / 2) % h == area + h / 2
  {
  }

  lemma VanishingWidth(w: nat, h: nat, height: nat)
    requires w > 0 && 0 < h < U32 && height > 0 && Rounded(h, w, height) == 0
    ensures height < ScaledHeight(w, h, 1)
    ensures h / 2 + w / 2 - Remainder(w, h, height) < 0
  {
    VanishingArea(w * height, h);
    assert w * height >= w;
    VanishingColumn(w, h, height);
  }

  lemma VanishingColumn(w: nat, h: nat, height: nat)
    requires w > 0 && h > 0 && height > 0 && w * height + h / 2 < h
    ensures height < Rounded(w, h, 1) <= h
  {
    assert h * w >= h && (height + 1) * w == w * height + w && w * height >= w;
    TallerAndBounded(h + w / 2, w, height, h);
  }

  lemma TallerAndBounded(k: nat, w: nat, low: nat, high: nat)
    requires w > 0 && (low + 1) * w <= k < high * w + w
    ensures low < k / w <= high
  {
    Quotient(k, w, low + 1);
    Quotient(k, w, high);
  }

  lemma RoundedWidthFits(w: nat, h: nat, width: nat, height: nat)
    requires w > 0 && h > 0 && !LimitedByWidth(w, h, width, height)
    ensures Rounded(h, w, height) <= width
  {
    Quotient(w * height + h / 2, h, width);
  }

  lemma AtLeastOneRow(w: nat, h: nat, width: nat)
    requires 0 < w <= h && width > 0
    ensures Rounded(w, h, width) >= 1
  {
  }

  /** Whole rows in the rest, which is never as much as 2^32 of them. */
  lemma RowsInRest(w: nat, h: nat, rest: int)
    requires 0 < w && 0 < h < U32 && rest <= h / 2 + w / 2
    ensures rest / w < U32
    ensures rest / w == 0 <==> 0 <= rest < w
    ensures rest < 0 <==> rest / w < 0
  {
  }

  /** For a height-limited image the two heights agree exactly when the rounding of
      the width leaves less than one row. */
  lemma HeightLimitedAgrees(w: nat, h: nat, width: nat, height: nat)
    requires 0 < w < U32 && 0 < h < U32 && 0 < width < U32 && 0 < height < U32
    requires !LimitedByWidth(w, h, width, height)
    ensures Predicted(w, h, width, height).width <= width && Predicted(w, h, width, height).height == height
    ensures HeightAgrees(w, h, width, height) <==> 0 <= h / 2 + w / 2 - Remainder(w, h, height) < w
  {
    hide LimitedByWidth, Rounded, Remainder;
    RoundedWidthFits(w, h, width, height);
    if Rounded(h, w, height) == 0 {
      VanishingWidth(w, h, height);
    } else {
      HeightAfterRounding(w, h, height);
      if h >= w {
        AtLeastOneRow(w, h, Rounded(h, w, height));
      }
      RowsInRest(w, h, h / 2 + w / 2 - Remainder(w, h, height));
    }
  }

  /** An image at least as wide as tall always agrees. */
  lemma WideImagesAgree(w: nat, h: nat, width: nat, height: nat)
    requires 0 < h <= w < U32 && 0 < width < U32 && 0 < height < U32
    ensures HeightAgrees(w, h, width, height)
  {
    if LimitedByWidth(w, h, width, height) {
      WidthLimitedAgrees(w, h, width, height);
    } else {
      HeightLimitedAgrees(w, h, width, height);
      if w == h {
        Division(w * height + h / 2, h, height, h / 2);
      }
    }
  }

  /** A tall image need not: 106 by 300 pixels in a box of 696 by 271 are scaled to
      one row more than the box has. */
  lemma TallImageMissesTheBox()
    ensures !HeightAgrees(106, 300, 696, 271)
    ensures ScaledHeight(106, 300, Predicted(106, 300, 696, 271).width) == 272
  {
    assert !LimitedByWidth(106, 300, 696, 271) && Rounded(300, 106, 271) == 96 && Rounded(106, 300, 96) == 272;
  }

  /** The pixel at a position of the box when an image of `size` stands centred. */
  function Framed(image: Raster, size: Size, width: nat, height: nat, x: nat, y: nat): Pixel
    requires image.Valid() && image.width > 0 && image.height > 0
    requires size.width <= width && size.height <= height
  {
    var left, top := (width - size.width) / 2, (height - size.height) / 2;
    if left <= x < left + size.width && top <= y < top + size.height
    then Sample(image, size.width, size.height, x - left, y - top)
    else 0
  }

  /** What is left after `margin` and `inner` is as much as `margin`, or one more. */
  predicate Even(margin: nat, inner: nat, outer: nat) {
    margin + inner <= outer && 0 <= outer - inner - margin - margin <= 1
  }

  /** The scaled image stands in the middle of the box, pixel by pixel, on white. */
  ghost predicate Centred(image: Raster, size: Size, out: Raster)
    requires image.Valid()
  {
    && out.Valid()
    && forall left: nat, top: nat, x: nat, y: nat ::
         Even(left, size.width, out.width) && Even(top, size.height, out.height) && x < out.width && y < out.height ==>
           if left <= x < left + size.width && top <= y < top + size.height
           then ShowsPixel(image, size, x - left, y - top, out.At(x, y))
           else out.At(x, y) == 0
  }

  /** The pixel is that of the source whose column and row span the position. */
  ghost predicate ShowsPixel(image: Raster, size: Size, x: nat, y: nat, pixel: Pixel)
    requires image.Valid()
  {
    forall column: nat, row: nat ::
      column < image.width && row < image.height
      && Spans(column, x, image.width, size.width) && Spans(row, y, image.height, size.height) ==>
        pixel == image.At(column, row)
  }

  lemma SampleIsShown(image: Raster, size: Size, x: nat, y: nat)
    requires image.Valid() && image.width > 0 && image.height > 0 && x < size.width && y < size.height
    ensures ShowsPixel(image, size, x, y, Sample(image, size.width, size.height, x, y))
  {
    hide Spans;
    forall column: nat, row: nat |
      column < image.width && row < image.height
      && Spans(column, x, image.width, size.width) && Spans(row, y, image.height, size.height)
      ensures Sample(image, size.width, size.height, x, y) == image.At(column, row)
    {
      OneSpans(x, image.width, size.width, column, Sampled(x, image.width, size.width));
      OneSpans(y, image.height, size.height, row, Sampled(y, image.height, size.height));
    }
  }

  lemma OneMargin(width: nat, inner: nat, margin: nat)
    requires inner <= width
    ensures Even((width - inner) / 2, inner, width)
    ensures Even(margin, inner, width) ==> margin == (width - inner) / 2
  {
  }

  lemma FramedIsCentred(image: Raster, size: Size, out: Raster)
    requires image.Valid() && image.width > 0 && image.height > 0
    requires size.width <= out.width && size.height <= out.height && Frames(image, size, out)
    ensures Centred(image, size, out)
  {
    hide Even, ShowsPixel, Sample, Spans;
    forall left: nat, top: nat, x: nat, y: nat |
      Even(left, size.width, out.width) && Even(top, size.height, out.height) && x < out.width && y < out.height
      ensures if left <= x < left + size.width && top <= y < top + size.height
              then ShowsPixel(image, size, x - left, y - top, out.At(x, y))
              else out.At(x, y) == 0
    {
      OneMargin(out.width, size.width, left);
      OneMargin(out.height, size.height, top);
      if left <= x < left + size.width && top <= y < top + size.height {
        SampleIsShown(image, size, x - left, y - top);
      }
    }
  }

  /** Why the image is not fitted, if it is not.  With debug assertions a wrong
      prediction stops the program; without them a scaled image that is too tall
      makes the margins negative. */
  function Refusal(w: nat, h: nat, width: nat, height: nat, debug: bool): (refusal: Result<Size>)
    ensures refusal.Ok? ==> refusal.value.width <= width && refusal.value.height <= height
  {
    if width == 0 || height == 0 || w == 0 || h == 0 then Err(Invalid) else
    var scaledWidth := AtLeastOne(Predicted(w, h, width, height).width);
    var scaledHeight := ScaledHeight(w, h, scaledWidth);
    if scaledHeight * scaledWidth >= U32 then Err(Overflow)
    else if debug && !HeightAgrees(w, h, width, height) then Err(Mismatch)
    else if height * width >= U32 || scaledWidth > width || scaledHeight > height then Err(Overflow)
    else Ok(Size(scaledWidth, scaledHeight))
  }

  /** What the pixel at position `k` is after `rows` rows of the scaled image have been copied. */
  ghost predicate PixelFramed(image: Raster, size: Size, width: nat, height: nat, rows: nat, k: nat, pixel: Pixel)
    requires image.Valid() && image.width > 0 && image.height > 0
    requires size.width <= width && size.height <= height
  {
    width > 0 && pixel ==
    if k / width < (height - size.height) / 2 + rows && k / width < height
    then Framed(image, size, width, height, k % width, k / width) else 0
  }

  ghost predicate RowsFramed(image: Raster, size: Size, width: nat, height: nat, pixels: seq<Pixel>, rows: nat)
    requires image.Valid() && image.width > 0 && image.height > 0
    requires size.width <= width && size.height <= height
  {
    |pixels| == height * width &&
    forall k: nat :: k < |pixels| ==> PixelFramed(image, size, width, height, rows, k, pixels[k])
  }

  lemma NoRowsFramed(image: Raster, size: Size, width: nat, height: nat, pixels: seq<Pixel>)
    requires image.Valid() && image.width > 0 && image.height > 0
    requires size.width <= width && size.height <= height
    requires |pixels| == height * width && forall k :: 0 <= k < |pixels| ==> pixels[k] == 0
    ensures RowsFramed(image, size, width, height, pixels, 0)
  {
  }

  /** Which positions a run of `count` pixels in one row covers. */
  lemma RunInRow(x: nat, y: nat, w: int, row: nat, left: nat, count: nat)
    requires x < w && left + count <= w
    ensures row * w + left <= y * w + x < row * w + left + count <==> y == row && left <= x < left + count
  {
    var d := y - row;
    assert y * w - row * w == d * w;
    assert d >= 1 ==> d * w >= w;
    assert d <= -1 ==> d * w <= -w;
  }

  /** Where the pixel of a column and a row stands in the pixel vector. */
  function Offset(x: nat, y: nat, w: nat): nat {
    y * w + x
  }

  lemma RunInside(row: nat, w: nat, h: nat, left: nat, count: nat)
    requires row < h && left + count <= w
    ensures Offset(left, row, w) + count <= h * w
  {
    assert (row + 1) * w <= h * w;
  }

  /** `slice` written over `before` at `start`. */
  function Splice(before: seq<Pixel>, start: nat, slice: seq<Pixel>): (after: seq<Pixel>)
    requires start + |slice| <= |before|
    ensures |after| == |before|
    ensures forall k :: 0 <= k < |before| ==>
              after[k] == if start <= k < start + |slice| then slice[k - start] else before[k]
  {
    before[..start] + slice + before[start + |slice|..]
  }

  lemma RowCopied(
      image: Raster, scaled: Raster, width: nat, height: nat, before: seq<Pixel>, start: nat, slice: seq<Pixel>, y: nat)
    requires image.Valid() && image.width > 0 && image.height > 0 && Scales(image, scaled)
    requires scaled.width <= width && scaled.height <= height && y < scaled.height
    requires RowsFramed(image, Size(scaled.width, scaled.height), width, height, before, y)
    requires start == Offset((width - scaled.width) / 2, (height - scaled.height) / 2 + y, width)
    requires start + |slice| <= |before|
    requires |slice| == scaled.width && forall i: nat :: i < scaled.width ==> slice[i] == scaled.At(i, y)
    ensures RowsFramed(image, Size(scaled.width, scaled.height), width, height, Splice(before, start, slice), y + 1)
  {
    hide PixelFramed, Scales, Splice, Offset;
    var after := Splice(before, start, slice);
    forall k: nat | k < |after|
      ensures PixelFramed(image, Size(scaled.width, scaled.height), width, height, y + 1, k, after[k])
    {
      InRun(k, width, height, (width - scaled.width) / 2, (height - scaled.height) / 2 + y, scaled.width);
      CopiedPixel(image, scaled, width, height, before[k], after[k], y, k);
    }
  }

  lemma InRun(k: nat, w: nat, h: nat, left: nat, row: nat, count: nat)
    requires k < h * w && left + count <= w
    ensures w > 0 && k / w < h && k % w < w
    ensures Offset(left, row, w) <= k < Offset(left, row, w) + count <==>
            k / w == row && left <= k % w < left + count
    ensures k / w == row ==> k - Offset(left, row, w) == k % w - left
  {
    CellOf(k, w, h);
    RunInRow(k % w, k / w, w, row, left, count);
  }

  lemma CopiedPixel(
      image: Raster, scaled: Raster, width: nat, height: nat, before: Pixel, after: Pixel, row: nat, k: nat)
    requires image.Valid() && image.width > 0 && image.height > 0 && Scales(image, scaled)
    requires scaled.width <= width && scaled.height <= height && row < scaled.height
    requires PixelFramed(image, Size(scaled.width, scaled.height), width, height, row, k, before)
    requires var left, top := (width - scaled.width) / 2, (height - scaled.height) / 2;
             after == if k / width == top + row && left <= k % width < left + scaled.width
                      then scaled.At(k % width - left, row) else before
    ensures PixelFramed(image, Size(scaled.width, scaled.height), width, height, row + 1, k, after)
  {
  }

  lemma AllFramed(image: Raster, size: Size, width: nat, height: nat, pixels: seq<Pixel>)
    requires image.Valid() && image.width > 0 && image.height > 0
    requires size.width <= width && size.height <= height
    requires width < U32 && height < U32 && height * width < U32
    requires RowsFramed(image, size, width, height, pixels, size.height)
    ensures Frames(image, size, Raster(width, height, pixels))
  {
    hide Sample;
    var out := Raster(width, height, pixels);
    forall x: nat, y: nat | x < width && y < height
      ensures out.At(x, y) == Framed(image, size, width, height, x, y)
    {
      CellInside(x, y, width, height);
      Cell(x, y, width);
    }
  }

  ghost predicate Frames(image: Raster, size: Size, out: Raster)
    requires image.Valid() && image.width > 0 && image.height > 0
    requires size.width <= out.width && size.height <= out.height
  {
    out.Valid() &&
    forall x: nat, y: nat :: x < out.width && y < out.height ==>
      out.At(x, y) == Framed(image, size, out.width, out.height, x, y)
  }

  lemma ScaledRow(image: Raster, scaled: Raster, y: nat)
    requires image.Valid() && image.width > 0 && image.height > 0 && Scales(image, scaled) && y < scaled.height
    ensures var source := Offset(0, y, scaled.width);
            source + scaled.width <= |scaled.pixels| &&
            forall i: nat :: i < scaled.width ==> scaled.pixels[source..source + scaled.width][i] == scaled.At(i, y)
  {
    RunInside(y, scaled.width, scaled.height, 0, scaled.width);
  }

  /** `copy_from_slice`. */
  method CopySlice(target: array<Pixel>, start: nat, slice: seq<Pixel>)
    requires start + |slice| <= target.Length
    modifies target
    ensures target[..] == Splice(old(target[..]), start, slice)
  {
    forall i | 0 <= i < |slice| {
      target[start + i] := slice[i];
    }
  }

  /** One turn of the copying loop. */
  method CopyRow(ghost image: Raster, scaled: Raster, pixels: array<Pixel>, width: nat, height: nat, y: nat)
    requires image.Valid() && image.width > 0 && image.height > 0 && Scales(image, scaled)
    requires scaled.width <= width && scaled.height <= height && y < scaled.height
    requires pixels.Length == height * width
    requires RowsFramed(image, Size(scaled.width, scaled.height), width, height, pixels[..], y)
    modifies pixels
    ensures RowsFramed(image, Size(scaled.width, scaled.height), width, height, pixels[..], y + 1)
  {
    hide RowsFramed, Scales, Splice, Offset;
    var left := (width - scaled.width) / 2;
    var top := (height - scaled.height) / 2;
    var source := Offset(0, y, scaled.width);
    var destination := Offset(left, top + y, width);
    ScaledRow(image, scaled, y);
    RunInside(top + y, width, height, left, scaled.width);
    ghost var before := pixels[..];
    var slice := scaled.pixels[source..source + scaled.width];
    CopySlice(pixels, destination, slice);
    RowCopied(image, scaled, width, height, before, destination, slice, y);
  }

  /** The scaled image copied row by row into the white box. */
  method Centre(ghost image: Raster, scaled: Raster, width: nat, height: nat) returns (out: Raster)
    requires image.Valid() && image.width > 0 && image.height > 0 && Scales(image, scaled)
    requires scaled.width <= width < U32 && scaled.height <= height < U32 && height * width < U32
    ensures out.width == width && out.height == height
    ensures Frames(image, Size(scaled.width, scaled.height), out)
  {
    hide RowsFramed, Scales, Frames;
    var pixels := new Pixel[height * width](_ => 0);
    NoRowsFramed(image, Size(scaled.width, scaled.height), width, height, pixels[..]);
    for y := 0 to scaled.height
      invariant RowsFramed(image, Size(scaled.width, scaled.height), width, height, pixels[..], y)
    {
      CopyRow(image, scaled, pixels, width, height, y);
    }
    AllFramed(image, Size(scaled.width, scaled.height), width, height, pixels[..]);
    return Raster(width, height, pixels[..]);
  }

  method FitToBox(image: Raster, width: nat, height: nat, debug: bool) returns (result: Result<Raster>)
    requires image.Valid() && width < U32 && height < U32
    ensures match Refusal(image.width, image.height, width, height, debug)
            case Err(error) => result == Err(error)
            case Ok(size) =>
              result.Ok? && result.value.width == width && result.value.height == height
              && Frames(image, size, result.value) && Centred(image, size, result.value)
    ensures result == Err(Invalid) <==> width == 0 || height == 0 || image.width == 0 || image.height == 0
  {
    hide Scales, ShowsSource, Frames, Centred, Predicted, ScaledHeight;
    if width == 0 || height == 0 || image.width == 0 || image.height == 0 {
      return Err(Invalid);
    }
    var predicted := Predicted(image.width, image.height, width, height);
    var scaling := ScaleToWidth(image, AtLeastOne(predicted.width));
    if scaling.Err? {
      assert scaling.error == Overflow;
      return Err(scaling.error);
    }
    var scaled := scaling.value;
    if debug && scaled.height != AtLeastOne(predicted.height) {
      return Err(Mismatch);
    }
    if height * width >= U32 {
      return Err(Overflow);
    }
    if scaled.width > width || scaled.height > height {
      return Err(Overflow);
    }
    var out := Centre(image, scaled, width, height);
    FramedIsCentred(image, Size(scaled.width, scaled.height), out);
    return Ok(out);
  }

  /** With debug assertions an image is fitted exactly when the box is addressable
      and the image is width-limited or its rounded width leaves less than a row. */
  lemma FittedWithAssertions(w: nat, h: nat, width: nat, height: nat)
    requires 0 < w < U32 && 0 < h < U32 && 0 < width < U32 && 0 < height < U32
    ensures Refusal(w, h, width, height, true).Ok? <==>
            height * width < U32 &&
            (LimitedByWidth(w, h, width, height) || 0 <= h / 2 + w / 2 - Remainder(w, h, height) < w)
  {
    hide Predicted, ScaledHeight, LimitedByWidth;
    if LimitedByWidth(w, h, width, height) {
      WidthLimitedAgrees(w, h, width, height);
    } else {
      HeightLimitedAgrees(w, h, width, height);
    }
    var size := Predicted(w, h, width, height);
    SmallerArea(AtLeastOne(size.width), AtLeastOne(size.height), width, height);
  }

  /** An image rounded to two columns or more is scaled to at most twice the box. */
  lemma TwoColumns(w: nat, h: nat, height: nat)
    requires w > 0 && h > 0 && height > 0 && Rounded(h, w, height) >= 2
    ensures (h / 2 + w / 2 - Remainder(w, h, height)) / w <= height
  {
    Quotient(w * height + h / 2, h, 2);
    assert w * height >= w;
    Quotient(h / 2 + w / 2 - Remainder(w, h, height), w, height);
  }

  lemma OneColumn(w: nat, h: nat)
    requires w > 0 && h > 0
    ensures Rounded(w, h, 1) <= h
  {
    assert h * w >= h;
    Quotient(h + w / 2, w, h);
  }

  lemma TwoHalves(width: nat, height: nat)
    requires width >= 2 && height * width < U32
    ensures 2 * height < U32
  {
    assert 2 * height <= height * width;
  }

  /** In an addressable box the height of a height-limited image is not cut to 32 bits. */
  lemma HeightIsNotCut(w: nat, h: nat, width: nat, height: nat)
    requires 0 < w < U32 && 0 < h < U32 && 0 < width < U32 && 0 < height < U32 && height * width < U32
    requires !LimitedByWidth(w, h, width, height) && Rounded(h, w, height) > 0
    ensures Rounded(w, h, Rounded(h, w, height)) < U32
  {
    hide LimitedByWidth, Rounded, Remainder;
    RoundedWidthFits(w, h, width, height);
    if Rounded(h, w, height) == 1 {
      OneColumn(w, h);
    } else {
      TwoHalves(width, height);
      TwoColumns(w, h, height);
      HeightAfterRounding(w, h, height);
    }
  }

  lemma HeightLimitedFits(w: nat, h: nat, width: nat, height: nat)
    requires 0 < w < U32 && 0 < h < U32 && 0 < width < U32 && 0 < height < U32 && height * width < U32
    requires !LimitedByWidth(w, h, width, height)
    ensures Predicted(w, h, width, height).width <= width
    ensures ScaledHeight(w, h, AtLeastOne(Predicted(w, h, width, height).width)) <= height <==>
            Rounded(h, w, height) > 0 && h / 2 + w / 2 - Remainder(w, h, height) < w
  {
    hide LimitedByWidth, Rounded, Remainder;
    RoundedWidthFits(w, h, width, height);
    if Rounded(h, w, height) == 0 {
      VanishingWidth(w, h, height);
    } else {
      HeightIsNotCut(w, h, width, height);
      HeightAfterRounding(w, h, height);
      RowsInRest(w, h, h / 2 + w / 2 - Remainder(w, h, height));
    }
  }

  /** Without debug assertions a height-limited image may also come out shorter than
      the box, but not vanish and not come out taller. */
  lemma FittedWithoutAssertions(w: nat, h: nat, width: nat, height: nat)
    requires 0 < w < U32 && 0 < h < U32 && 0 < width < U32 && 0 < height < U32
    ensures Refusal(w, h, width, height, false).Ok? <==>
            height * width < U32 &&
            (LimitedByWidth(w, h, width, height) ||
             (Rounded(h, w, height) > 0 && h / 2 + w / 2 - Remainder(w, h, height) < w))
  {
    hide LimitedByWidth, Rounded, Remainder, ScaledHeight;
    var size := Predicted(w, h, width, height);
    var scaledHeight := ScaledHeight(w, h, AtLeastOne(size.width));
    SmallerArea(AtLeastOne(size.width), scaledHeight, width, height);
    if LimitedByWidth(w, h, width, height) {
      WidthLimitedAgrees(w, h, width, height);
    } else if height * width < U32 {
      HeightLimitedFits(w, h, width, height);
    }
  }

  /** The two builds differ: 1 by 3 pixels in a box of 4 by 7 are scaled to 2 by 6,
      which fits, though the prediction was 7 rows. */
  lemma ShortImageFitsWithoutAssertions()
    ensures Refusal(1, 3, 4, 7, false) == Ok(Size(2, 6)) && Refusal(1, 3, 4, 7, true) == Err(Mismatch)
  {
    assert Rounded(3, 1, 7) == 2 && Rounded(1, 3, 2) == 6;
  }

  /** The size of a fitted image: one side is that of the box, and the other keeps the
      proportions to within half a source pixel, or is one pixel. */
  lemma FittedSizeKeepsProportions(w: nat, h: nat, width: nat, height: nat, debug: bool)
    requires 0 < w < U32 && 0 < h < U32 && width < U32 && height < U32 && Refusal(w, h, width, height, debug).Ok?
    ensures var size := Refusal(w, h, width, height, debug).value;
            && 0 < size.width <= width && 0 < size.height <= height
            && (width * h <= height * w ==>
                  size.width == width && (size.height == 1 || h * width - (w + 1) / 2 <= size.height * w <= h * width + w / 2))
            && (width * h > height * w ==>
                  (debug ==> size.height == height) &&
                  (size.width == 1 || w * height - (h + 1) / 2 <= size.width * h <= w * height + h / 2))
  {
    hide Refusal, Rounded;
    if LimitedByWidth(w, h, width, height) {
      WidthLimitedSize(w, h, width, height, debug);
      RoundedIsNear(w, h, width);
    } else {
      HeightLimitedSize(w, h, width, height, debug);
      RoundedIsNear(h, w, height);
    }
  }

  lemma NearestMultiple(n: int, w: nat)
    requires w > 0
    ensures n - (w + 1) / 2 <= (n + w / 2) / w * w <= n + w / 2
  {
    var m := n + w / 2;
    assert m == m / w * w + m % w;
  }

  lemma RoundedIsNear(w: nat, h: nat, width: nat)
    requires w > 0
    ensures h * width - (w + 1) / 2 <= Rounded(w, h, width) * w <= h * width + w / 2
  {
    NearestMultiple(h * width, w);
  }

  lemma WidthLimitedSize(w: nat, h: nat, width: nat, height: nat, debug: bool)
    requires 0 < w < U32 && 0 < h < U32 && width < U32 && height < U32 && Refusal(w, h, width, height, debug).Ok?
    requires LimitedByWidth(w, h, width, height)
    ensures var size := Refusal(w, h, width, height, debug).value;
            size.width == width > 0 && size.height == AtLeastOne(Rounded(w, h, width))
  {
    hide LimitedByWidth, Rounded, Remainder, HeightAgrees;
    RoundedHeightFits(w, h, width, height);
    NotCut(w, h, width);
  }

  lemma NotCut(w: nat, h: nat, width: nat)
    requires w > 0 && Rounded(w, h, width) < U32
    ensures ScaledHeight(w, h, width) == AtLeastOne(Rounded(w, h, width))
  {
    hide Rounded;
  }

  lemma RoundedHeightFits(w: nat, h: nat, width: nat, height: nat)
    requires w > 0 && LimitedByWidth(w, h, width, height)
    ensures Rounded(w, h, width) <= height
  {
    Quotient(h * width + w / 2, w, height);
  }

  /** A height that is not cut to 32 bits is at least one row. */
  lemma SomeRow(w: nat, h: nat, width: nat)
    requires w > 0 && Rounded(w, h, width) < U32
    ensures ScaledHeight(w, h, width) > 0
  {
    hide Rounded;
  }

  lemma RowsOfHeightLimited(w: nat, h: nat, width: nat, height: nat)
    requires 0 < w < U32 && 0 < h < U32 && 0 < width < U32 && 0 < height < U32 && height * width < U32
    requires !LimitedByWidth(w, h, width, height)
    ensures ScaledHeight(w, h, AtLeastOne(Rounded(h, w, height))) > 0
  {
    hide LimitedByWidth, Rounded, ScaledHeight;
    if Rounded(h, w, height) > 0 {
      HeightIsNotCut(w, h, width, height);
      SomeRow(w, h, Rounded(h, w, height));
    } else {
      OneColumn(w, h);
      SomeRow(w, h, 1);
    }
  }

  lemma HeightLimitedSize(w: nat, h: nat, width: nat, height: nat, debug: bool)
    requires 0 < w < U32 && 0 < h < U32 && width < U32 && height < U32 && Refusal(w, h, width, height, debug).Ok?
    requires !LimitedByWidth(w, h, width, height)
    ensures var size := Refusal(w, h, width, height, debug).value;
            && (debug ==> size.height == height) && size.height > 0 && size.width == AtLeastOne(Rounded(h, w, height))
  {
    hide LimitedByWidth, Rounded, Remainder, ScaledHeight;
    RoundedWidthFits(w, h, width, height);
    RowsOfHeightLimited(w, h, width, height);
  }

  // ---------------------------------------------------------------- what wraps without overflow checks

  /** Without overflow checks a scaled image of 2^32 pixels or more still stops the
      program: the vector has the wrapped length, and the pixel of just that number,
      reached before any index wraps, is not in it. */
  lemma WrappedAreaStops(width: nat, height: nat)
    requires 0 < width < U32 && height * width >= U32
    ensures var length := height * width % U32;
            var x, y := length % width, length / width;
            x < width && y < height && y * width + x == length < U32
  {
    CellOf(height * width % U32, width, height);
  }

  lemma HalfTurns(width: nat, offset: int)
    requires -0x8000_0000 <= offset < 0
    ensures (0x8000_0000 * width + offset) % U32 >= 0x8000_0000 + offset
  {
    var half := width / 2;
    if width % 2 == 0 {
      assert width == 2 * half;
      Division(0x8000_0000 * width + offset, U32, half - 1, U32 + offset);
    } else {
      assert width == 2 * half + 1;
      Division(0x8000_0000 * width + offset, U32, half, 0x8000_0000 + offset);
    }
  }

  lemma RowsAbove(width: nat, height: nat, rows: nat)
    requires rows > 0
    ensures width <= rows * width && (height + rows) * width == height * width + rows * width
  {
  }

  /** A negative margin wraps to a first row outside the box, unless the box and the
      rows above it reach 2^31 pixels. */
  lemma WrappedMarginStops(width: nat, height: nat, scaledWidth: nat, scaledHeight: nat)
    requires 0 < scaledWidth <= width && height < scaledHeight < U32
    requires (height + (scaledHeight - height + 1) / 2) * width <= 0x8000_0000
    ensures var top := (height - scaledHeight + U32) / 2;
            var left := (width - scaledWidth) / 2;
            (top * width + left) % U32 + scaledWidth > height * width
  {
    WrappedTop(height, scaledHeight);
    WrappedRow(width, height, (scaledHeight - height + 1) / 2, (width - scaledWidth) / 2, scaledWidth);
  }

  lemma WrappedTop(height: nat, scaledHeight: nat)
    requires height < scaledHeight < U32
    ensures (height - scaledHeight + U32) / 2 == 0x8000_0000 - (scaledHeight - height + 1) / 2
  {
  }

  lemma WrappedRow(width: nat, height: nat, rows: nat, left: nat, scaledWidth: nat)
    requires 0 < rows && 0 < scaledWidth && left + scaledWidth <= width && (height + rows) * width <= 0x8000_0000
    ensures ((0x8000_0000 - rows) * width + left) % U32 + scaledWidth > height * width
  {
    RowsAbove(width, height, rows);
    assert (0x8000_0000 - rows) * width == 0x8000_0000 * width - rows * width;
    HalfTurns(width, left - rows * width);
  }

  lemma SmallerArea(a: nat, b: nat, width: nat, height: nat)
    ensures a <= width && b <= height ==> b * a <= height * width
  {
  }
}
