/**
 * Image helpers of the style-transfer Android demo
 * (official/lite/style_transfer/.../ImageUtils.java).
 *
 * Exif orientation codes and their 2x2 transformation matrices, the guard
 * of `scaleBitmapAndKeepRatio`, the packing of a bitmap into a float
 * buffer for the model input and the unpacking of the model output into a
 * bitmap. Android's `Bitmap`, `Matrix` and `ByteBuffer` become a datatype,
 * integer matrices and a small class.
 */
module ImageUtils {
  import opened Wrappers

  // The values of the Orientation tag (0x0112) of the Exif standard, as ExifInterface names them.
  const OrientationUndefined := 0
  const OrientationNormal := 1
  const OrientationFlipHorizontal := 2
  const OrientationRotate180 := 3
  const OrientationFlipVertical := 4
  const OrientationTranspose := 5
  const OrientationRotate90 := 6
  const OrientationTransverse := 7
  const OrientationRotate270 := 8

  predicate IsQuarterTurn(degrees: int)
  {
    degrees == 0 || degrees == 90 || degrees == 180 || degrees == 270
  }

  /** `computeExifOrientation`: the Exif code of a rotation, mirrored or not. */
  function ComputeExifOrientation(rotationDegrees: int, mirrored: bool): (o: int)
    ensures 0 <= o <= 8
    ensures o == OrientationUndefined <==> !IsQuarterTurn(rotationDegrees)
  {
    if rotationDegrees == 0 && !mirrored then OrientationNormal
    else if rotationDegrees == 0 && mirrored then OrientationFlipHorizontal
    else if rotationDegrees == 180 && !mirrored then OrientationRotate180
    else if rotationDegrees == 180 && mirrored then OrientationFlipVertical
    else if rotationDegrees == 90 && !mirrored then OrientationRotate90
    else if rotationDegrees == 90 && mirrored then OrientationTranspose
    else if rotationDegrees == 270 && !mirrored then OrientationRotate270
    else if rotationDegrees == 270 && mirrored then OrientationTransverse
    else OrientationUndefined
  }

  /** The rotation and mirroring an Exif code stands for; none for 0 and unknown codes. */
  function OrientationMeaning(o: int): (r: Option<(int, bool)>)
    ensures r.Some? <==> 1 <= o <= 8
    ensures r.Some? ==> IsQuarterTurn(r.value.0)
  {
    match o
    case 1 => Some((0, false))
    case 2 => Some((0, true))
    case 3 => Some((180, false))
    case 4 => Some((180, true))
    case 5 => Some((90, true))
    case 6 => Some((90, false))
    case 7 => Some((270, true))
    case 8 => Some((270, false))
    case _ => None
  }

  /** Every quarter turn, mirrored or not, has its own code, and the code gives it back. */
  lemma ComputeExifOrientationRoundTrip(rotationDegrees: int, mirrored: bool)
    requires IsQuarterTurn(rotationDegrees)
    ensures OrientationMeaning(ComputeExifOrientation(rotationDegrees, mirrored)) == Some((rotationDegrees, mirrored))
  {
  }

  /** The eight valid codes are exactly the codes computed from a quarter turn. */
  lemma OrientationMeaningRoundTrip(o: int)
    requires 1 <= o <= 8
    ensures ComputeExifOrientation(OrientationMeaning(o).value.0, OrientationMeaning(o).value.1) == o
  {
  }

  /**
   * A rotation or mirroring of the image plane, as an Android `Matrix`
   * built from quarter turns and mirror scalings holds it: mirror
   * horizontally first if `mirrored`, then turn `turns` quarter turns.
   * These are the eight symmetries of the square.
   */
  datatype Transform = Transform(turns: int, mirrored: bool)

  predicate ValidTransform(t: Transform)
  {
    0 <= t.turns < 4
  }

  const Identity := Transform(0, false)

  type Point = (int, int)

  /** A quarter turn is the matrix [[0, -1], [1, 0]]. */
  function RotatePoint(p: Point, k: int): Point
    requires 0 <= k < 4
  {
    if k == 0 then p else if k == 1 then (-p.1, p.0) else if k == 2 then (-p.0, -p.1) else (p.1, -p.0)
  }

  /** The scaling [[sx, 0], [0, sy]] with `sx` and `sy` each 1 or -1. */
  function ScalePoint(p: Point, sx: int, sy: int): Point
  {
    (if sx == -1 then -p.0 else p.0, if sy == -1 then -p.1 else p.1)
  }

  /** Where a transformation sends a point. */
  function Apply(t: Transform, p: Point): Point
    requires ValidTransform(t)
  {
    RotatePoint(if t.mirrored then ScalePoint(p, -1, 1) else p, t.turns)
  }

  function QuarterTurns(degrees: int): (k: int)
    requires IsQuarterTurn(degrees)
    ensures 0 <= k < 4
  {
    if degrees == 0 then 0 else if degrees == 90 then 1 else if degrees == 180 then 2 else 3
  }

  function AddTurns(k: int, l: int): (r: int)
    requires 0 <= k < 4 && 0 <= l < 4
    ensures 0 <= r < 4
  {
    if k + l >= 4 then k + l - 4 else k + l
  }

  function NegTurns(k: int): (r: int)
    requires 0 <= k < 4
    ensures 0 <= r < 4
  {
    if k == 0 then 0 else 4 - k
  }

  /** `postRotate(degrees)`: the rotation is applied after the current transformation. */
  function PostRotate(t: Transform, degrees: int): (r: Transform)
    requires ValidTransform(t) && IsQuarterTurn(degrees)
    ensures ValidTransform(r)
    ensures forall p: Point :: Apply(r, p) == RotatePoint(Apply(t, p), QuarterTurns(degrees))
  {
    Transform(AddTurns(t.turns, QuarterTurns(degrees)), t.mirrored)
  }

  /** `postScale(sx, sy)` with one of the two mirror scalings, applied after the current transformation. */
  function PostScale(t: Transform, sx: int, sy: int): (r: Transform)
    requires ValidTransform(t) && ((sx == -1 && sy == 1) || (sx == 1 && sy == -1))
    ensures ValidTransform(r)
    ensures forall p: Point :: Apply(r, p) == ScalePoint(Apply(t, p), sx, sy)
  {
    if sx == -1 then Transform(NegTurns(t.turns), !t.mirrored)
    else Transform(AddTurns(2, NegTurns(t.turns)), !t.mirrored)
  }

  predicate IsMirrored(o: int)
  {
    o == OrientationFlipHorizontal || o == OrientationFlipVertical ||
    o == OrientationTranspose || o == OrientationTransverse
  }

  /**
   * `decodeExifOrientation`: the transformation that undoes an Exif
   * orientation. Unknown codes create an exception object that is never
   * thrown, so they give the identity like NORMAL and UNDEFINED.
   */
  function DecodeExifOrientation(o: int): (t: Transform)
    ensures ValidTransform(t)
    ensures !(2 <= o <= 8) ==> t == Identity
    ensures t.mirrored <==> IsMirrored(o)
  {
    var m := Identity;
    if o == OrientationRotate90 then PostRotate(m, 90)
    else if o == OrientationRotate180 then PostRotate(m, 180)
    else if o == OrientationRotate270 then PostRotate(m, 270)
    else if o == OrientationFlipHorizontal then PostScale(m, -1, 1)
    else if o == OrientationFlipVertical then PostScale(m, 1, -1)
    else if o == OrientationTranspose then PostRotate(PostScale(m, -1, 1), 270)
    else if o == OrientationTransverse then PostRotate(PostScale(m, -1, 1), 90)
    else m
  }

  /** The eight codes give the eight distinct symmetries of the square. */
  lemma DecodeExifOrientationInjective(o1: int, o2: int)
    requires 1 <= o1 <= 8 && 1 <= o2 <= 8
    requires DecodeExifOrientation(o1) == DecodeExifOrientation(o2)
    ensures o1 == o2
  {
  }

  /** Decoding a computed code rotates by the given angle and then mirrors horizontally if asked. */
  lemma DecodeOfComputed(rotationDegrees: int, mirrored: bool, p: Point)
    requires IsQuarterTurn(rotationDegrees)
    ensures var turned := RotatePoint(p, QuarterTurns(rotationDegrees));
      Apply(DecodeExifOrientation(ComputeExifOrientation(rotationDegrees, mirrored)), p) ==
      if mirrored then ScalePoint(turned, -1, 1) else turned
  {
  }

  /** A bitmap of ARGB pixels in row-major order. */
  datatype Bitmap = Bitmap(width: nat, height: nat, pixels: seq<bv32>)

  predicate WellSized(b: Bitmap)
  {
    |b.pixels| == b.width * b.height
  }

  /**
   * `scaleBitmapAndKeepRatio(target, reqHeight, reqWidth)`: the input
   * itself when it already has the requested size, else the bitmap that
   * `resample` (Android's `createBitmap` with a FILL matrix) draws.
   */
  function ScaleBitmapAndKeepRatio(target: Bitmap, reqHeightInPixels: nat, reqWidthInPixels: nat,
                                   resample: (Bitmap, nat, nat) -> Bitmap): (r: Bitmap)
    requires forall b: Bitmap, w: nat, h: nat :: resample(b, w, h).width == w && resample(b, w, h).height == h
    ensures r.width == reqWidthInPixels && r.height == reqHeightInPixels
    ensures target.width == reqWidthInPixels && target.height == reqHeightInPixels ==> r == target
  {
    if target.height == reqHeightInPixels && target.width == reqWidthInPixels then target
    else resample(target, reqWidthInPixels, reqHeightInPixels)
  }

  /** Scaling to the size a bitmap already has, twice or once, gives the same bitmap. */
  lemma ScaleBitmapIdempotent(target: Bitmap, reqHeightInPixels: nat, reqWidthInPixels: nat,
                              resample: (Bitmap, nat, nat) -> Bitmap)
    requires forall b: Bitmap, w: nat, h: nat :: resample(b, w, h).width == w && resample(b, w, h).height == h
    ensures var once := ScaleBitmapAndKeepRatio(target, reqHeightInPixels, reqWidthInPixels, resample);
      ScaleBitmapAndKeepRatio(once, reqHeightInPixels, reqWidthInPixels, resample) == once
  {
  }

  lemma MulMono(a: nat, b: nat, c: nat)
    requires a <= b
    ensures a * c <= b * c
  {
  }

  /**
   * `Bitmap.getPixels(out, 0, width, 0, 0, width, height)`: the top-left
   * `width` x `height` region, row by row; a region larger than the
   * bitmap raises IllegalArgumentException.
   */
  function GetPixels(b: Bitmap, width: nat, height: nat): (r: Result<seq<bv32>>)
    requires WellSized(b)
    ensures r.Err? <==> width > b.width || height > b.height
    ensures r.Ok? ==> |r.value| == width * height
    ensures r.Ok? && width == b.width ==> width * height <= |b.pixels| && r.value == b.pixels[..width * height]
  {
    if width > b.width || height > b.height then Err(IllegalArgument)
    else
      RegionFullWidth(b, height);
      Ok(Region(b, width, height))
  }

  /** The rows `0 .. height-1` of the bitmap, each cut to its first `width` pixels. */
  function Region(b: Bitmap, width: nat, height: nat): (r: seq<bv32>)
    requires WellSized(b) && width <= b.width && height <= b.height
    ensures |r| == width * height
  {
    if height == 0 then []
    else
      var start := (height - 1) * b.width;
      assert start + b.width <= |b.pixels| by {
        assert start + b.width == height * b.width;
        MulMono(height, b.height, b.width);
      }
      assert width * (height - 1) + width == width * height;
      Region(b, width, height - 1) + b.pixels[start..start + width]
  }

  /** Whole rows read back the bitmap's own pixels. */
  lemma {:induction false} RegionFullWidth(b: Bitmap, height: nat)
    requires WellSized(b) && height <= b.height
    ensures b.width * height <= |b.pixels|
    ensures Region(b, b.width, height) == b.pixels[..b.width * height]
  {
    MulMono(height, b.height, b.width);
    if height > 0 {
      RegionFullWidth(b, height - 1);
      assert b.width * (height - 1) + b.width == b.width * height;
    }
  }

  /** Colour channel `k` (0 red, 1 green, 2 blue) of an ARGB pixel: `value >> 16 & 255` and so on. */
  function Channel(value: bv32, k: nat): (c: bv32)
    requires k < 3
    ensures c < 256
  {
    if k == 0 then (value >> 16) & 0xFF else if k == 1 then (value >> 8) & 0xFF else value & 0xFF
  }

  /** The float written for channel `k` of a pixel. */
  function NormalizedChannel(value: bv32, k: nat, mean: real, std: real): real
    requires k < 3 && std != 0.0
  {
    (Channel(value, k) as int as real - mean) / std
  }

  /** The model input: three normalized floats per pixel, red first, in pixel order (see `NormalizedEntries`). */
  function Normalized(pixels: seq<bv32>, mean: real, std: real): (r: seq<real>)
    requires std != 0.0
    ensures |r| == 3 * |pixels|
  {
    if |pixels| == 0 then []
    else
      var last := pixels[|pixels| - 1];
      Normalized(pixels[..|pixels| - 1], mean, std) +
      [NormalizedChannel(last, 0, mean, std), NormalizedChannel(last, 1, mean, std), NormalizedChannel(last, 2, mean, std)]
  }

  /** Entries `3i`, `3i + 1` and `3i + 2` are pixel `i`'s red, green and blue channels, normalized. */
  lemma {:induction false} NormalizedEntries(pixels: seq<bv32>, mean: real, std: real, i: nat)
    requires std != 0.0 && i < |pixels|
    ensures var r := Normalized(pixels, mean, std);
      r[3 * i] == NormalizedChannel(pixels[i], 0, mean, std) &&
      r[3 * i + 1] == NormalizedChannel(pixels[i], 1, mean, std) &&
      r[3 * i + 2] == NormalizedChannel(pixels[i], 2, mean, std)
  {
    var init := pixels[..|pixels| - 1];
    if i < |init| {
      NormalizedEntries(init, mean, std, i);
      assert init[i] == pixels[i];
    }
  }

  /** A direct float buffer with a write position, as `ByteBuffer.putFloat` and `rewind` use it. */
  class FloatBuffer {
    var contents: seq<real>
    var position: nat

    ghost predicate Valid()
      reads this
    {
      position <= |contents|
    }

    /** `allocateDirect(4 * capacity)`: zero-filled, positioned at the start. */
    constructor Allocate(capacity: nat)
      ensures Valid()
      ensures contents == seq(capacity, _ => 0.0) && position == 0
    {
      contents := seq(capacity, _ => 0.0);
      position := 0;
    }

    /** The size in bytes, four per float. */
    function ByteCapacity(): (n: nat)
      reads this
      ensures n == 4 * |contents|
    {
      4 * |contents|
    }

    method PutFloat(v: real)
      requires Valid() && position < |contents|
      modifies this
      ensures Valid()
      ensures contents == old(contents)[old(position) := v] && position == old(position) + 1
    {
      contents := contents[position := v];
      position := position + 1;
    }

    method Rewind()
      requires Valid()
      modifies this
      ensures Valid()
      ensures contents == old(contents) && position == 0
    {
      position := 0;
    }
  }

  /** The nested loop of `bitmapToByteBuffer`: one normalized float per channel, pixel by pixel, then rewind. */
  method FillBuffer(intValues: seq<bv32>, width: nat, height: nat, mean: real, std: real) returns (buf: FloatBuffer)
    requires |intValues| == width * height && std != 0.0
    ensures fresh(buf) && buf.Valid()
    ensures buf.ByteCapacity() == width * height * 3 * 4
    ensures buf.contents == Normalized(intValues, mean, std) && buf.position == 0
  {
    buf := new FloatBuffer.Allocate(width * height * 3);
    var pixel := 0;
    for y := 0 to height
      invariant pixel == y * width
      invariant buf.Valid() && |buf.contents| == 3 * |intValues| && buf.position == 3 * pixel
      invariant pixel <= |intValues| && buf.contents[..3 * pixel] == Normalized(intValues[..pixel], mean, std)
    {
      MulMono(y + 1, height, width);
      assert (y + 1) * width == y * width + width && height * width == |intValues|;
      pixel := PutRow(buf, intValues, pixel, width, mean, std);
    }
    buf.Rewind();
    assert intValues[..pixel] == intValues;
  }

  /** The inner loop over one row: three `putFloat` calls per pixel. */
  method PutRow(buf: FloatBuffer, intValues: seq<bv32>, pixel: nat, width: nat, mean: real, std: real)
    returns (next: nat)
    requires std != 0.0 && pixel + width <= |intValues|
    requires buf.Valid() && |buf.contents| == 3 * |intValues| && buf.position == 3 * pixel
    requires buf.contents[..3 * pixel] == Normalized(intValues[..pixel], mean, std)
    modifies buf
    ensures next == pixel + width
    ensures buf.Valid() && |buf.contents| == 3 * |intValues| && buf.position == 3 * next
    ensures buf.contents[..3 * next] == Normalized(intValues[..next], mean, std)
  {
    next := pixel;
    for x := 0 to width
      invariant next == pixel + x
      invariant buf.Valid() && |buf.contents| == 3 * |intValues| && buf.position == 3 * next
      invariant buf.contents[..3 * next] == Normalized(intValues[..next], mean, std)
    {
      var value := intValues[next];
      ghost var before := buf.contents;
      buf.PutFloat(NormalizedChannel(value, 0, mean, std));
      buf.PutFloat(NormalizedChannel(value, 1, mean, std));
      buf.PutFloat(NormalizedChannel(value, 2, mean, std));
      PixelStep(before, buf.contents, intValues, next, mean, std);
      next := next + 1;
    }
  }

  /** Writing pixel `n`'s three channels after the first `n` pixels extends the normalized prefix by one pixel. */
  lemma PixelStep(before: seq<real>, after: seq<real>, pixels: seq<bv32>, n: nat, mean: real, std: real)
    requires std != 0.0 && n < |pixels| && 3 * n + 3 <= |before|
    requires before[..3 * n] == Normalized(pixels[..n], mean, std)
    requires after == before[3 * n := NormalizedChannel(pixels[n], 0, mean, std)]
                            [3 * n + 1 := NormalizedChannel(pixels[n], 1, mean, std)]
                            [3 * n + 2 := NormalizedChannel(pixels[n], 2, mean, std)]
    ensures after[..3 * n + 3] == Normalized(pixels[..n + 1], mean, std)
  {
    var v := pixels[n];
    assert pixels[..n + 1][..n] == pixels[..n];
    assert Normalized(pixels[..n + 1], mean, std) == Normalized(pixels[..n], mean, std) +
      [NormalizedChannel(v, 0, mean, std), NormalizedChannel(v, 1, mean, std), NormalizedChannel(v, 2, mean, std)];
    assert after[..3 * n + 3] == before[..3 * n] +
      [NormalizedChannel(v, 0, mean, std), NormalizedChannel(v, 1, mean, std), NormalizedChannel(v, 2, mean, std)];
  }

  /**
   * `bitmapToByteBuffer` as written: the bitmap is scaled with width and
   * height swapped, so the pixel read fails unless the size is square.
   */
  method BitmapToByteBuffer(bitmapIn: Bitmap, width: nat, height: nat, mean: real, std: real,
                            resample: (Bitmap, nat, nat) -> Bitmap)
    returns (r: Result<FloatBuffer>)
    requires WellSized(bitmapIn) && std != 0.0
    requires forall b: Bitmap, w: nat, h: nat :: resample(b, w, h).width == w && resample(b, w, h).height == h
    requires forall b: Bitmap, w: nat, h: nat | WellSized(b) :: WellSized(resample(b, w, h))
    ensures r.Err? <==> width != height
    ensures r.Ok? ==> fresh(r.value) && r.value.Valid() && r.value.position == 0
    ensures r.Ok? ==>
      var bitmap := ScaleBitmapAndKeepRatio(bitmapIn, width, height, resample);
      r.value.contents == Normalized(bitmap.pixels, mean, std)
  {
    var bitmap := ScaleBitmapAndKeepRatio(bitmapIn, width, height, resample);
    var intValues := GetPixels(bitmap, width, height);
    if intValues.Err? {
      return Err(intValues.error);
    }
    assert intValues.value == bitmap.pixels;
    var buf := FillBuffer(intValues.value, width, height, mean, std);
    return Ok(buf);
  }

  /** `bitmapToByteBuffer` with the requested height and width passed in their own order. */
  method BitmapToByteBufferIntended(bitmapIn: Bitmap, width: nat, height: nat, mean: real, std: real,
                                    resample: (Bitmap, nat, nat) -> Bitmap)
    returns (buf: FloatBuffer)
    requires WellSized(bitmapIn) && std != 0.0
    requires forall b: Bitmap, w: nat, h: nat :: resample(b, w, h).width == w && resample(b, w, h).height == h
    requires forall b: Bitmap, w: nat, h: nat | WellSized(b) :: WellSized(resample(b, w, h))
    ensures fresh(buf) && buf.Valid() && buf.position == 0
    ensures buf.ByteCapacity() == width * height * 3 * 4
    ensures var bitmap := ScaleBitmapAndKeepRatio(bitmapIn, height, width, resample);
      buf.contents == Normalized(bitmap.pixels, mean, std)
  {
    var bitmap := ScaleBitmapAndKeepRatio(bitmapIn, height, width, resample);
    var intValues := GetPixels(bitmap, width, height);
    assert intValues.value == bitmap.pixels;
    buf := FillBuffer(intValues.value, width, height, mean, std);
  }

  const IntMin := -0x8000_0000
  const IntMax := 0x7FFF_FFFF

  /** Java's `(int)` cast of a float: towards zero, saturating at the int range. */
  function JavaFloatToInt(x: real): (i: int)
    ensures IntMin <= i <= IntMax
    ensures x >= 0.0 ==> 0 <= i && i as real <= x
    ensures x <= 0.0 ==> i <= 0 && x <= i as real
    ensures IntMin as real - 1.0 < x < IntMax as real + 1.0 ==> -1.0 < x - i as real < 1.0
  {
    var t := if x >= 0.0 then x.Floor else -((-x).Floor);
    if t > IntMax then IntMax else if t < IntMin then IntMin else t
  }

  function ToBv32(i: int): bv32
  {
    (i % 0x1_0000_0000) as bv32
  }

  /** `Color.rgb(r, g, b)`: opaque alpha with the three channels shifted into place. */
  function Rgb(red: int, green: int, blue: int): bv32
  {
    RgbBits(ToBv32(red), ToBv32(green), ToBv32(blue))
  }

  function RgbBits(r: bv32, g: bv32, b: bv32): bv32
  {
    0xFF00_0000 | (r << 16) | (g << 8) | b
  }

  /** A colour built from three bytes gives each byte back as its channel. */
  lemma ChannelOfRgb(r: bv32, g: bv32, b: bv32)
    requires r < 256 && g < 256 && b < 256
    ensures Channel(RgbBits(r, g, b), 0) == r
    ensures Channel(RgbBits(r, g, b), 1) == g
    ensures Channel(RgbBits(r, g, b), 2) == b
  {
  }

  /** The pixel written for one element of the model output: each channel times 255, cast to int. */
  function PixelOf(element: seq<real>): bv32
    requires |element| >= 3
  {
    Rgb(JavaFloatToInt(element[0] * 255.0), JavaFloatToInt(element[1] * 255.0), JavaFloatToInt(element[2] * 255.0))
  }

  /** Every row of the output plane has `cols` elements of at least three channels. */
  predicate Rectangular(plane: seq<seq<seq<real>>>, cols: nat)
  {
    forall x | 0 <= x < |plane| :: |plane[x]| == cols && forall y | 0 <= y < cols :: |plane[x][y]| >= 3
  }

  /**
   * `convertArrayToBitmap`: element `[0][x][y]` becomes pixel `(y, x)` of a
   * fresh `imageWidth` x `imageHeight` bitmap, whose other pixels stay 0.
   * A non-positive size, or an element that falls outside the bitmap,
   * raises IllegalArgumentException.
   */
  method ConvertArrayToBitmap(imageArray: seq<seq<seq<seq<real>>>>, imageWidth: int, imageHeight: int)
    returns (r: Result<array2<bv32>>)
    requires |imageArray| > 0
    requires |imageArray[0]| > 0 ==> Rectangular(imageArray[0], |imageArray[0][0]|)
    ensures var xs := |imageArray[0]|;
      var ys := if xs == 0 then 0 else |imageArray[0][0]|;
      r.Ok? <==> imageWidth > 0 && imageHeight > 0 && (xs == 0 || ys == 0 || (xs <= imageHeight && ys <= imageWidth))
    ensures r.Ok? ==> fresh(r.value) && r.value.Length0 == imageWidth && r.value.Length1 == imageHeight
    ensures r.Ok? ==> forall i, j | 0 <= i < imageWidth && 0 <= j < imageHeight ::
      r.value[i, j] == if j < |imageArray[0]| && i < |imageArray[0][j]| then PixelOf(imageArray[0][j][i]) else 0
  {
    if imageWidth <= 0 || imageHeight <= 0 {
      return Err(IllegalArgument);
    }
    var plane := imageArray[0];
    var styled := new bv32[imageWidth, imageHeight]((_, _) => 0);
    if |plane| == 0 {
      return Ok(styled);
    }
    var ys := |plane[0]|;
    if ys > 0 && |plane| > imageHeight {
      return Err(IllegalArgument);
    }
    if ys > imageWidth {
      return Err(IllegalArgument);
    }
    for x := 0 to |plane|
      invariant forall i, j | 0 <= i < imageWidth && 0 <= j < imageHeight ::
        styled[i, j] == if j < x && i < ys then PixelOf(plane[j][i]) else 0
    {
      SetColumn(styled, plane[x], x);
    }
    return Ok(styled);
  }

  /** The inner loop: `setPixel(y, x, ...)` for every element `y` of row `x` of the output. */
  method SetColumn(styled: array2<bv32>, row: seq<seq<real>>, x: nat)
    requires (|row| == 0 || x < styled.Length1) && |row| <= styled.Length0
    requires forall y | 0 <= y < |row| :: |row[y]| >= 3
    modifies styled
    ensures forall i, j | 0 <= i < styled.Length0 && 0 <= j < styled.Length1 ::
      styled[i, j] == if j == x && i < |row| then PixelOf(row[i]) else old(styled[i, j])
  {
    for y := 0 to |row|
      invariant forall i, j | 0 <= i < styled.Length0 && 0 <= j < styled.Length1 ::
        styled[i, j] == if j == x && i < y then PixelOf(row[i]) else old(styled[i, j])
    {
      styled[y, x] := PixelOf(row[y]);
    }
  }
}
