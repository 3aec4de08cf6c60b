/** The pixel stages of the image processor: alpha-aware grayscale reduction,
    binarisation against the global mean, and their composition with the resampler. */
module ImageProcessing {
  import opened Grids

  /** One pixel: its channel samples, in the order R, G, B, A, ... */
  type Pixel = seq<real>

  /** A decoded or resampled image: rows of pixels. */
  type Image = seq<seq<Pixel>>

  /** Resolution used when none is given. */
  const DefaultTargetRes: nat := 10

  /** Grey value given to a fully transparent pixel, on the 8-bit scale whatever the scale of the samples. */
  const TransparentGray: real := 255.0

  datatype ProcessError = ShapeMismatch

  /** Every pixel has an alpha channel at index 3. */
  predicate AllRgba(img: Image) {
    forall i, j :: 0 <= i < |img| && 0 <= j < |img[i]| ==> |img[i][j]| >= 4
  }

  /** A decoded image: at least one row and one column, rectangular, one channel count throughout. */
  predicate IsPixelArray(img: Image) {
    |img| > 0 && |img[0]| > 0 && IsRectangular(img, |img[0]|) &&
    forall i, j :: 0 <= i < |img| && 0 <= j < |img[i]| ==> |img[i][j]| == |img[0][0]|
  }

  function Channels(img: Image): nat
    requires IsPixelArray(img)
  {
    |img[0][0]|
  }

  /** The shape contract of the resampler: `out` is n x n and keeps the channel count of `img`. */
  predicate IsResampling(out: Image, img: Image, n: nat)
    requires IsPixelArray(img)
  {
    |out| == n && IsRectangular(out, n) &&
    forall i, j :: 0 <= i < n && 0 <= j < n ==> |out[i][j]| == Channels(img)
  }

  function Min3(a: real, b: real, c: real): real {
    if a <= b && a <= c then a else if b <= c then b else c
  }

  function Max3(a: real, b: real, c: real): real {
    if a >= b && a >= c then a else if b >= c then b else c
  }

  /** Grey value of one pixel: white when fully transparent, else the unweighted mean of R, G and B. */
  function GrayValue(p: Pixel): (v: real)
    requires |p| >= 4
    ensures p[3] == 0.0 ==> v == TransparentGray
    ensures p[3] != 0.0 ==> Min3(p[0], p[1], p[2]) <= v <= Max3(p[0], p[1], p[2])
    ensures p[3] != 0.0 ==> 3.0 * v == p[0] + p[1] + p[2]
  {
    if p[3] == 0.0 then TransparentGray else (p[0] + p[1] + p[2]) / 3.0
  }

  /** Only R, G, B and whether alpha is zero enter the grey value; alpha's value and later channels do not. */
  lemma GrayValueDependsOnlyOnRgbAndTransparency(p: Pixel, q: Pixel)
    requires |p| >= 4 && |q| >= 4
    requires p[..3] == q[..3]
    requires (p[3] == 0.0) == (q[3] == 0.0)
    ensures GrayValue(p) == GrayValue(q)
  {
    assert p[0] == p[..3][0] && p[1] == p[..3][1] && p[2] == p[..3][2];
  }

  function GrayRow(row: seq<Pixel>): (r: seq<real>)
    requires forall j :: 0 <= j < |row| ==> |row[j]| >= 4
    ensures |r| == |row|
    ensures forall j :: 0 <= j < |row| ==> r[j] == GrayValue(row[j])
  {
    if row == [] then [] else [GrayValue(row[0])] + GrayRow(row[1..])
  }

  /** Grayscale reduction of a whole image, pixel by pixel. */
  function Grayscale(img: Image): (r: seq<seq<real>>)
    requires AllRgba(img)
    ensures SameShape(r, img)
    ensures forall i, j :: 0 <= i < |img| && 0 <= j < |img[i]| ==> r[i][j] == GrayValue(img[i][j])
  {
    if img == [] then [] else [GrayRow(img[0])] + Grayscale(img[1..])
  }

  function ThresholdRow(row: seq<real>, m: real): (r: seq<bool>)
    ensures |r| == |row|
    ensures forall j :: 0 <= j < |row| ==> r[j] == (row[j] > m)
  {
    if row == [] then [] else [row[0] > m] + ThresholdRow(row[1..], m)
  }

  function ThresholdRows(g: seq<seq<real>>, m: real): (r: seq<seq<bool>>)
    ensures SameShape(r, g)
    ensures forall i, j :: 0 <= i < |g| && 0 <= j < |g[i]| ==> r[i][j] == (g[i][j] > m)
  {
    if g == [] then [] else [ThresholdRow(g[0], m)] + ThresholdRows(g[1..], m)
  }

  /** Binarisation: a cell is true exactly when it lies strictly above the mean of all cells. */
  function Threshold(g: seq<seq<real>>): (r: seq<seq<bool>>)
    ensures SameShape(r, g)
    ensures forall i, j :: 0 <= i < |g| && 0 <= j < |g[i]| ==> r[i][j] == (g[i][j] > Mean(g))
  {
    ThresholdRows(g, Mean(g))
  }

  /** Position k of the flattened grid holds some cell of the grid. */
  lemma FlattenedCell(g: seq<seq<real>>, k: nat) returns (i: nat, j: nat)
    requires k < |Flatten(g)|
    ensures i < |g| && j < |g[i]| && g[i][j] == Flatten(g)[k]
  {
    FlattenMember(g, Flatten(g)[k]);
    i, j :| 0 <= i < |g| && 0 <= j < |g[i]| && g[i][j] == Flatten(g)[k];
  }

  /** Degeneracy: a uniform grid thresholds to all false, since its mean is its common value. */
  lemma ThresholdUniform(g: seq<seq<real>>, c: real)
    requires forall i, j :: 0 <= i < |g| && 0 <= j < |g[i]| ==> g[i][j] == c
    ensures forall i, j :: 0 <= i < |g| && 0 <= j < |g[i]| ==> !Threshold(g)[i][j]
  {
    var cells := Flatten(g);
    forall k | 0 <= k < |cells| ensures cells[k] == c {
      var i, j := FlattenedCell(g, k);
    }
    forall i, j | 0 <= i < |g| && 0 <= j < |g[i]| ensures !Threshold(g)[i][j] {
      FlattenMember(g, g[i][j]);
      MeanOfConstant(cells, c);
    }
  }

  /** A grid with a cell has a false cell: not every cell can lie strictly above the mean. */
  lemma ThresholdSomeFalse(g: seq<seq<real>>)
    requires CellCount(g) > 0
    ensures exists i, j :: 0 <= i < |g| && 0 <= j < |g[i]| && !Threshold(g)[i][j]
  {
    var k := MeanNotBelowAll(Flatten(g));
    var i, j := FlattenedCell(g, k);
    assert !Threshold(g)[i][j];
  }

  /** A grid with two different cells has a true cell: not every cell can lie at or below the mean. */
  lemma ThresholdSomeTrue(g: seq<seq<real>>, i1: nat, j1: nat, i2: nat, j2: nat)
    requires i1 < |g| && j1 < |g[i1]| && i2 < |g| && j2 < |g[i2]|
    requires g[i1][j1] != g[i2][j2]
    ensures exists i, j :: 0 <= i < |g| && 0 <= j < |g[i]| && Threshold(g)[i][j]
  {
    var cells := Flatten(g);
    FlattenMember(g, g[i1][j1]);
    FlattenMember(g, g[i2][j2]);
    var a :| 0 <= a < |cells| && cells[a] == g[i1][j1];
    var b :| 0 <= b < |cells| && cells[b] == g[i2][j2];
    var k := MeanNotAboveAll(cells, a, b);
    var i, j := FlattenedCell(g, k);
    assert Threshold(g)[i][j];
  }

  /** One global threshold: a cell at least as bright as a true cell is true as well. */
  lemma ThresholdMonotone(g: seq<seq<real>>, ix: nat, jx: nat, iy: nat, jy: nat)
    requires ix < |g| && jx < |g[ix]| && iy < |g| && jy < |g[iy]|
    requires Threshold(g)[ix][jx] && g[iy][jy] >= g[ix][jx]
    ensures Threshold(g)[iy][jy]
  {
  }

  /** The image processor; its only setting is the side length of the output bitmap. */
  datatype ImageProcessor = ImageProcessor(targetRes: nat) {

    /** Resample with `resize`, reduce to grey, binarise against the mean; a pixel without alpha channel is an error. */
    function Process(decoded: Image, resize: (Image, nat) -> Image): (r: Result<seq<seq<bool>>, ProcessError>)
      requires IsPixelArray(decoded)
      requires IsResampling(resize(decoded, targetRes), decoded, targetRes)
      ensures r.Ok? <==> targetRes == 0 || Channels(decoded) >= 4
      ensures r.Ok? ==> |r.value| == targetRes && IsRectangular(r.value, targetRes)
      ensures r.Ok? ==> r.value == Threshold(Grayscale(resize(decoded, targetRes)))
    {
      var resized := resize(decoded, targetRes);
      if AllRgba(resized) then Ok(Threshold(Grayscale(resized))) else Err(ShapeMismatch)
    }
  }

  /** A processor built without an explicit resolution produces 10 x 10 bitmaps. */
  function NewImageProcessor(targetRes: nat := DefaultTargetRes): ImageProcessor {
    ImageProcessor(targetRes)
  }

  lemma DefaultResolution()
    ensures NewImageProcessor().targetRes == 10
  {
  }
}
