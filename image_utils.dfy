/**
 * lib/imageUtils.ts: the client-side image shrink before upload.
 *
 * The image is drawn on a canvas no larger than 2048 on either side and encoded as
 * JPEG at up to four quality steps until the blob fits the byte target (1 MB unless
 * the caller gives one); the result is renamed to ".jpg". The scaling is computed in
 * exact rational arithmetic. Decoding, drawing and the encoder itself are inputs:
 * `encode(canvas, k)` is the blob the k-th quality step gives (null or its size in
 * bytes).
 */
module ImageUtils {
  import opened Wrappers

  const MaxDimension: nat := 2048
  const MaxQualitySteps: nat := 4
  const DefaultTargetBytes: nat := 1024 * 1024

  // ---------------------------------------------------------------------------
  // The ".ext" -> ".jpg" rewrite

  /** `\.[^.]+$` matches at `k`: a dot followed by at least one character, none of them a dot, up to the end. */
  predicate ExtensionAt(name: string, k: nat)
  {
    k < |name| - 1 && name[k] == '.' && forall i :: k < i < |name| ==> name[i] != '.'
  }

  /** Position of the last '.' of `s`, if any. */
  function LastDot(s: string): (r: Option<nat>)
    ensures r.Some? ==> r.value < |s| && s[r.value] == '.' && forall i :: r.value < i < |s| ==> s[i] != '.'
    ensures r.None? ==> forall i :: 0 <= i < |s| ==> s[i] != '.'
  {
    if s == [] then None
    else if s[|s| - 1] == '.' then Some(|s| - 1)
    else LastDot(s[..|s| - 1])
  }

  /**
   * `name.replace(/\.[^.]+$/, ".jpg")`: where the pattern matches, the dot and what
   * follows are replaced by ".jpg"; a name without a dot, or ending in a dot, is kept.
   */
  function JpgName(name: string): (r: string)
    ensures forall k: nat :: ExtensionAt(name, k) ==> r == name[..k] + ".jpg"
    ensures (forall k: nat :: !ExtensionAt(name, k)) ==> r == name
  {
    match LastDot(name)
    case None => name
    case Some(k) =>
      if k < |name| - 1 then
        assert ExtensionAt(name, k);
        name[..k] + ".jpg"
      else name
  }

  /** Only the last extension is replaced. */
  lemma JpgNameKeepsInnerDots()
    ensures JpgName("a.b.png") == "a.b.jpg"
    ensures JpgName("photo") == "photo"
    ensures JpgName("photo.") == "photo."
  {
    assert ExtensionAt("a.b.png", 3);
  }

  /** Renaming twice is renaming once. */
  lemma {:induction false} JpgNameIdempotent(name: string)
    ensures JpgName(JpgName(name)) == JpgName(name)
  {
    var r := JpgName(name);
    if exists k: nat :: ExtensionAt(name, k) {
      var k: nat :| ExtensionAt(name, k);
      assert r == name[..k] + ".jpg";
      assert ExtensionAt(r, k);
    }
  }

  // ---------------------------------------------------------------------------
  // The dimension gate

  datatype Dimensions = Dimensions(width: nat, height: nat)

  predicate NeedsScaling(d: Dimensions)
  {
    d.width > MaxDimension || d.height > MaxDimension
  }

  /** `Math.round`: the nearest integer, a half rounded up. */
  function Round(x: real): (n: int)
    ensures x - 0.5 < n as real <= x + 0.5
  {
    (x + 0.5).Floor
  }

  /** Rounding keeps the order of its arguments. */
  lemma {:induction false} RoundMonotone(x: real, y: real)
    ensures x <= y ==> Round(x) <= Round(y)
  {
  }

  /** A product with a factor of at most one is at most the other factor. */
  lemma {:induction false} ScaleDown(ratio: real, side: real, bound: real)
    requires 0.0 < ratio && 0.0 <= side && ratio * bound == 2048.0 && side <= bound
    ensures ratio * side <= 2048.0
  {
  }

  /**
   * `Math.min(2048 / width, 2048 / height)` for an image with a side over 2048. A zero
   * side divides to Infinity, which is never the minimum.
   */
  function ScaleRatio(d: Dimensions): (ratio: real)
    requires NeedsScaling(d)
    ensures 0.0 < ratio < 1.0
    ensures ratio * d.width as real <= MaxDimension as real && ratio * d.height as real <= MaxDimension as real
    ensures d.width >= d.height ==> ratio * d.width as real == MaxDimension as real
    ensures d.height >= d.width ==> ratio * d.height as real == MaxDimension as real
  {
    var w := d.width as real;
    var h := d.height as real;
    if d.width >= d.height then
      var ratio := 2048.0 / w;
      assert ratio * w == 2048.0;
      ScaleDown(ratio, h, w);
      ratio
    else
      var ratio := 2048.0 / h;
      assert ratio * h == 2048.0;
      ScaleDown(ratio, w, h);
      ratio
  }

  /** `n` is `num / den` rounded to the nearest integer, a half rounded up: `n - 1/2 <= num / den < n + 1/2`. */
  predicate NearestQuotient(n: int, num: int, den: int)
  {
    2 * (n * den - num) <= den && 2 * (num - n * den) < den
  }

  /** The shorter side scaled by `ratio = 2048 / long` and rounded is the nearest integer to `2048 * short / long`. */
  lemma {:induction false} RoundedShortSide(ratio: real, long: nat, short: nat, n: int)
    requires long > 0 && ratio * long as real == MaxDimension as real
    requires ratio * short as real - 0.5 < n as real <= ratio * short as real + 0.5
    ensures NearestQuotient(n, MaxDimension * short, long)
  {
    var L := long as real;
    var x := ratio * short as real;
    assert x * L == (MaxDimension * short) as real by {
      assert x * L == (ratio * L) * short as real;
    }
    assert n as real * L <= x * L + 0.5 * L;
    assert x * L - 0.5 * L < n as real * L;
    assert (n * long) as real == n as real * L;
  }

  /**
   * The canvas size: the image's own size unless a side exceeds 2048; then both sides are
   * multiplied by the ratio and rounded, so that the longer side becomes exactly 2048,
   * neither side exceeds it, and the orientation is kept. CanvasShortSide gives the
   * shorter side.
   */
  function CanvasSize(image: Dimensions): (r: Dimensions)
    ensures !NeedsScaling(image) ==> r == image
    ensures r.width <= MaxDimension && r.height <= MaxDimension
    ensures NeedsScaling(image) && image.width >= image.height ==> r.width == MaxDimension
    ensures NeedsScaling(image) && image.height >= image.width ==> r.height == MaxDimension
    ensures image.width >= image.height ==> r.width >= r.height
    ensures image.height >= image.width ==> r.height >= r.width
  {
    if NeedsScaling(image) then
      var ratio := ScaleRatio(image);
      var w := ratio * image.width as real;
      var h := ratio * image.height as real;
      var r := Dimensions(Round(w), Round(h));
      RoundMonotone(h, w);
      RoundMonotone(w, h);
      r
    else image
  }

  /**
   * An oversized image's shorter side becomes the nearest integer to
   * `2048 * short / long`, whichever side is the longer.
   */
  lemma {:induction false} CanvasShortSide(image: Dimensions)
    ensures var r := CanvasSize(image);
      && (NeedsScaling(image) && image.width >= image.height ==>
            NearestQuotient(r.height, MaxDimension * image.height, image.width))
      && (NeedsScaling(image) && image.height >= image.width ==>
            NearestQuotient(r.width, MaxDimension * image.width, image.height))
  {
    if NeedsScaling(image) {
      var ratio := ScaleRatio(image);
      var w := Round(ratio * image.width as real);
      var h := Round(ratio * image.height as real);
      assert CanvasSize(image) == Dimensions(w, h);
      if image.width >= image.height {
        RoundedShortSide(ratio, image.width, image.height, h);
      }
      if image.height >= image.width {
        RoundedShortSide(ratio, image.height, image.width, w);
      }
    }
  }

  // ---------------------------------------------------------------------------
  // The quality loop

  /** A blob that is neither null nor within the target: the loop tries the next quality step. */
  predicate Oversized(blob: Option<nat>, targetBytes: nat)
  {
    blob.Some? && blob.value > targetBytes
  }

  /**
   * How many encodes the loop makes from step `step` on: it stops after the first null
   * or small-enough blob, and after the last step in any case.
   */
  function AttemptsFrom(encode: (Dimensions, nat) -> Option<nat>, canvas: Dimensions, targetBytes: nat, step: nat): (n: nat)
    requires step < MaxQualitySteps
    ensures step < n <= MaxQualitySteps
    ensures forall k :: step <= k < n - 1 ==> Oversized(encode(canvas, k), targetBytes)
    ensures n < MaxQualitySteps ==> !Oversized(encode(canvas, n - 1), targetBytes)
    decreases MaxQualitySteps - step
  {
    if !Oversized(encode(canvas, step), targetBytes) || step + 1 == MaxQualitySteps then step + 1
    else AttemptsFrom(encode, canvas, targetBytes, step + 1)
  }

  function Attempts(encode: (Dimensions, nat) -> Option<nat>, canvas: Dimensions, targetBytes: nat): nat
  {
    AttemptsFrom(encode, canvas, targetBytes, 0)
  }

  /**
   * The `for` loop over quality steps with its early `break`: at most four encodes, and
   * the blob kept is the one of the last encode made.
   */
  method EncodeWithinTarget(encode: (Dimensions, nat) -> Option<nat>, canvas: Dimensions, targetBytes: nat)
    returns (blob: Option<nat>, attempts: nat)
    ensures 1 <= attempts <= MaxQualitySteps
    ensures attempts == Attempts(encode, canvas, targetBytes)
    ensures blob == encode(canvas, attempts - 1)
  {
    blob := None;
    attempts := 0;
    var step := 0;
    while step < MaxQualitySteps
      invariant 0 <= step <= MaxQualitySteps
      invariant attempts == step
      invariant step > 0 ==> blob == encode(canvas, step - 1)
      invariant step < MaxQualitySteps ==> AttemptsFrom(encode, canvas, targetBytes, step) == Attempts(encode, canvas, targetBytes)
      invariant step == MaxQualitySteps ==> Attempts(encode, canvas, targetBytes) == MaxQualitySteps
    {
      blob := encode(canvas, step);
      attempts := step + 1;
      if !Oversized(blob, targetBytes) {
        break;
      }
      step := step + 1;
    }
  }

  // ---------------------------------------------------------------------------
  // resizeImageToTarget

  datatype ImageFile = ImageFile(name: string, size: nat, mimeType: string)

  /** FileReader's `onerror` ("Failed to read file") and the image's `onerror` ("Failed to load image"). */
  datatype LoadFailure = ReadFailed | LoadFailed

  /** The promise's rejections: the file could not be loaded, or there is no 2D context. */
  datatype ResizeError = Load(failure: LoadFailure) | NoCanvasContext

  /**
   * resizeImageToTarget: a read or decode failure and a missing canvas context reject;
   * otherwise the last blob of the quality loop becomes a JPEG file named by JpgName,
   * and when that blob is null the original file is returned unchanged.
   */
  method ResizeImageToTarget(
    file: ImageFile, decoded: Result<Dimensions, LoadFailure>, hasContext: bool,
    encode: (Dimensions, nat) -> Option<nat>, targetBytes: nat := DefaultTargetBytes)
    returns (r: Result<ImageFile, ResizeError>)
    ensures decoded.Err? ==> r == Err(Load(decoded.error))
    ensures decoded.Ok? && !hasContext ==> r == Err(NoCanvasContext)
    ensures decoded.Ok? && hasContext ==>
      var canvas := CanvasSize(decoded.value);
      var last := encode(canvas, Attempts(encode, canvas, targetBytes) - 1);
      r == Ok(if last.None? then file else ImageFile(JpgName(file.name), last.value, "image/jpeg"))
  {
    if decoded.Err? {
      return Err(Load(decoded.error));
    }
    var canvas := CanvasSize(decoded.value);
    if !hasContext {
      return Err(NoCanvasContext);
    }
    var blob, attempts := EncodeWithinTarget(encode, canvas, targetBytes);
    if blob.None? {
      return Ok(file);
    }
    r := Ok(ImageFile(JpgName(file.name), blob.value, "image/jpeg"));
  }
}
