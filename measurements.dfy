/**
 * The measurement calculator of the Python backend (`get_pixel_distance` and
 * `calculate_measurements`): 17 pose keypoints and a stated height become six body
 * measurements in centimetres.
 *
 * Arithmetic is exact over `real`. The square root is a parameter `sqrt` of the
 * calculator; the properties that need it to be a square root say so with `IsSqrt`.
 * The final rounding to one decimal place is not modelled: the six values are the
 * ones before rounding.
 */
module Measurements {
  import opened Wrappers

  datatype Point = Point(x: real, y: real)

  /** The six values of the result, before rounding. */
  datatype Measurements = Measurements(
    shoulderWidth: real,
    waistWidth: real,
    armLength: real,
    legLength: real,
    chestCircumference: real,
    waistCircumference: real)

  /** The two `ValueError`s of `calculate_measurements`. */
  datatype CalcError =
    | InvalidKeypoints   // keypoints missing or fewer than 17
    | ZeroPixelHeight    // shoulders and ankles at the same height: no calibration

  datatype CalcResult = Computed(m: Measurements) | Failed(error: CalcError)

  /** Keypoints of the 17-point pose schema that the calculator uses. */
  const KeypointCount: nat := 17
  const LeftShoulder: nat := 5
  const RightShoulder: nat := 6
  const LeftElbow: nat := 7
  const RightElbow: nat := 8
  const LeftWrist: nat := 9
  const RightWrist: nat := 10
  const LeftHip: nat := 11
  const RightHip: nat := 12
  const LeftKnee: nat := 13
  const RightKnee: nat := 14
  const LeftAnkle: nat := 15
  const RightAnkle: nat := 16

  /** The shoulder-to-ankle span is taken to be 80% of the stated height. */
  const BodyHeightFraction: real := 0.80
  /** Correction applied to the chest circle estimate. */
  const ChestCorrection: real := 0.9
  /** `np.pi`, as the shortest decimal that reads back as the double closest to pi. */
  const Pi: real := 3.141592653589793

  /** `sqrt(v)`, named so that the law below is applied only where a proof mentions `Root`. */
  function Root(sqrt: real -> real, v: real): real {
    sqrt(v)
  }

  /** `sqrt` gives the non-negative square root of every non-negative real. */
  ghost predicate IsSqrt(sqrt: real -> real) {
    forall v {:trigger Root(sqrt, v)} :: 0.0 <= v ==> 0.0 <= Root(sqrt, v) && Root(sqrt, v) * Root(sqrt, v) == v
  }

  // ---------------------------------------------------------------------------
  // Distances

  /** The squared Euclidean distance between two points. */
  function SquaredDistance(p: Point, q: Point): real {
    (p.x - q.x) * (p.x - q.x) + (p.y - q.y) * (p.y - q.y)
  }

  /** `get_pixel_distance`: the Euclidean distance between two points. */
  function PixelDistance(sqrt: real -> real, p: Point, q: Point): real {
    sqrt(SquaredDistance(p, q))
  }

  /** Two non-negative reals with the same square are equal. */
  lemma SquareInjective(a: real, b: real)
    requires 0.0 <= a && 0.0 <= b && a * a == b * b
    ensures a == b
  {
    assert (a - b) * (a + b) == a * a - b * b;
    if a + b != 0.0 {
      assert a - b == ((a - b) * (a + b)) / (a + b);
    }
  }

  /** The square root of a square is the base. */
  lemma SqrtOfSquare(sqrt: real -> real, a: real)
    requires IsSqrt(sqrt) && 0.0 <= a
    ensures sqrt(a * a) == a
  {
    var r := Root(sqrt, a * a);
    assert 0.0 <= r && r * r == a * a;
    SquareInjective(r, a);
  }

  /** `get_pixel_distance` is the non-negative square root of the squared Euclidean distance. */
  lemma PixelDistanceIsRoot(sqrt: real -> real, p: Point, q: Point)
    requires IsSqrt(sqrt)
    ensures PixelDistance(sqrt, p, q) >= 0.0
    ensures PixelDistance(sqrt, p, q) * PixelDistance(sqrt, p, q) == SquaredDistance(p, q)
  {
    var dx, dy := p.x - q.x, p.y - q.y;
    assert dx * dx >= 0.0 && dy * dy >= 0.0;
    var d := Root(sqrt, SquaredDistance(p, q));
    assert d >= 0.0 && d * d == SquaredDistance(p, q);
  }

  lemma DistanceNonNegative(sqrt: real -> real, p: Point, q: Point)
    requires IsSqrt(sqrt)
    ensures PixelDistance(sqrt, p, q) >= 0.0
  {
    var dx, dy := p.x - q.x, p.y - q.y;
    assert dx * dx >= 0.0 && dy * dy >= 0.0;
    assert SquaredDistance(p, q) >= 0.0;
    assert Root(sqrt, SquaredDistance(p, q)) >= 0.0;
  }

  /** Symmetry needs nothing of `sqrt`: both orders take the root of the same number. */
  lemma DistanceSymmetric(sqrt: real -> real, p: Point, q: Point)
    ensures PixelDistance(sqrt, p, q) == PixelDistance(sqrt, q, p)
  {
    assert (p.x - q.x) * (p.x - q.x) == (q.x - p.x) * (q.x - p.x);
    assert (p.y - q.y) * (p.y - q.y) == (q.y - p.y) * (q.y - p.y);
    assert SquaredDistance(p, q) == SquaredDistance(q, p);
  }

  lemma DistanceToSelfIsZero(sqrt: real -> real, p: Point)
    requires IsSqrt(sqrt)
    ensures PixelDistance(sqrt, p, p) == 0.0
  {
    SqrtOfSquare(sqrt, 0.0);
  }

  /** The point with both coordinates multiplied by `s` (the same person photographed larger). */
  function Stretch(p: Point, s: real): Point {
    Point(s * p.x, s * p.y)
  }

  /** The squared difference of two stretched coordinates. */
  lemma StretchedSquare(a: real, b: real, s: real)
    ensures (s * a - s * b) * (s * a - s * b) == (s * s) * ((a - b) * (a - b))
  {
    var u := a - b;
    assert s * a - s * b == s * u;
    assert (s * u) * (s * u) == (s * s) * (u * u);
  }

  /** Stretching both points by a factor `s > 0` stretches their distance by `s`. */
  lemma DistanceScales(sqrt: real -> real, p: Point, q: Point, s: real)
    requires IsSqrt(sqrt) && s > 0.0
    ensures PixelDistance(sqrt, Stretch(p, s), Stretch(q, s)) == s * PixelDistance(sqrt, p, q)
  {
    var ux, uy := (p.x - q.x) * (p.x - q.x), (p.y - q.y) * (p.y - q.y);
    assert ux >= 0.0 && uy >= 0.0;
    var sq := SquaredDistance(p, q);
    var d := Root(sqrt, sq);
    assert 0.0 <= d && d * d == sq;
    StretchedSquare(p.x, q.x, s);
    StretchedSquare(p.y, q.y, s);
    var sq' := SquaredDistance(Stretch(p, s), Stretch(q, s));
    assert sq' == (s * s) * sq;
    var d' := Root(sqrt, sq');
    assert 0.0 <= d' && d' * d' == sq';
    assert (s * d) * (s * d) == (s * s) * (d * d);
    assert 0.0 <= s * d;
    SquareInjective(d', s * d);
  }

  // ---------------------------------------------------------------------------
  // Calibration

  function Abs(v: real): (r: real)
    ensures r >= 0.0 && (r == v || r == -v)
  {
    if v < 0.0 then -v else v
  }

  function MidY(p: Point, q: Point): real {
    (p.y + q.y) / 2.0
  }

  /** The vertical pixel span between the shoulder midpoint and the ankle midpoint. */
  function PixelHeight(k: seq<Point>): (h: real)
    requires |k| >= KeypointCount
    ensures h >= 0.0
    ensures h == 0.0 <==> MidY(k[LeftShoulder], k[RightShoulder]) == MidY(k[LeftAnkle], k[RightAnkle])
  {
    Abs(MidY(k[LeftAnkle], k[RightAnkle]) - MidY(k[LeftShoulder], k[RightShoulder]))
  }

  /** Centimetres per pixel: the shoulder-to-ankle span maps to 80% of the stated height. */
  function CalibrationRatio(k: seq<Point>, heightCm: real): (ratio: real)
    requires |k| >= KeypointCount && PixelHeight(k) != 0.0
    ensures ratio * PixelHeight(k) == BodyHeightFraction * heightCm
    ensures heightCm >= 0.0 ==> ratio >= 0.0
  {
    (heightCm * BodyHeightFraction) / PixelHeight(k)
  }

  // ---------------------------------------------------------------------------
  // Pixel lengths

  /** The two-segment chain a -> b -> c (shoulder-elbow-wrist, hip-knee-ankle). */
  function ChainLength(sqrt: real -> real, k: seq<Point>, a: nat, b: nat, c: nat): real
    requires a < |k| && b < |k| && c < |k|
  {
    PixelDistance(sqrt, k[a], k[b]) + PixelDistance(sqrt, k[b], k[c])
  }

  /** The shoulder width, in pixels. */
  function ShoulderPixels(sqrt: real -> real, k: seq<Point>): real
    requires |k| >= KeypointCount
  {
    PixelDistance(sqrt, k[LeftShoulder], k[RightShoulder])
  }

  /** The waist width (between the hips), in pixels. */
  function WaistPixels(sqrt: real -> real, k: seq<Point>): real
    requires |k| >= KeypointCount
  {
    PixelDistance(sqrt, k[LeftHip], k[RightHip])
  }

  /** The mean of the left and right arm chains, in pixels. */
  function ArmPixels(sqrt: real -> real, k: seq<Point>): real
    requires |k| >= KeypointCount
  {
    (ChainLength(sqrt, k, LeftShoulder, LeftElbow, LeftWrist)
     + ChainLength(sqrt, k, RightShoulder, RightElbow, RightWrist)) / 2.0
  }

  /** The mean of the left and right leg chains, in pixels. */
  function LegPixels(sqrt: real -> real, k: seq<Point>): real
    requires |k| >= KeypointCount
  {
    (ChainLength(sqrt, k, LeftHip, LeftKnee, LeftAnkle)
     + ChainLength(sqrt, k, RightHip, RightKnee, RightAnkle)) / 2.0
  }

  // ---------------------------------------------------------------------------
  // The calculator

  /** Pixel lengths converted with `ratio`, and the circumferences estimated from the widths. */
  function ToCentimetres(shoulderPx: real, waistPx: real, armPx: real, legPx: real, ratio: real): Measurements {
    var shoulderWidth := shoulderPx * ratio;
    var waistWidth := waistPx * ratio;
    Measurements(
      shoulderWidth,
      waistWidth,
      armPx * ratio,
      legPx * ratio,
      shoulderWidth * Pi * ChestCorrection,
      waistWidth * Pi)
  }

  /**
   * `calculate_measurements`. The keypoint check comes first and the zero-span check
   * guards the division; on success the two circumferences are circles over the
   * shoulder and waist widths (the chest one corrected by 0.9).
   */
  function Calculate(sqrt: real -> real, keypoints: Option<seq<Point>>, heightCm: real): (r: CalcResult)
    ensures r == Failed(InvalidKeypoints) <==> keypoints.None? || |keypoints.value| < KeypointCount
    ensures r == Failed(ZeroPixelHeight) <==>
      keypoints.Some? && |keypoints.value| >= KeypointCount && PixelHeight(keypoints.value) == 0.0
    ensures r.Computed? ==>
      && r.m.chestCircumference == r.m.shoulderWidth * Pi * ChestCorrection
      && r.m.waistCircumference == r.m.waistWidth * Pi
  {
    if keypoints.None? || |keypoints.value| < KeypointCount then
      Failed(InvalidKeypoints)
    else
      var k := keypoints.value;
      var pixelHeight := PixelHeight(k);
      if pixelHeight == 0.0 then
        Failed(ZeroPixelHeight)
      else
        var ratio := CalibrationRatio(k, heightCm);
        Computed(ToCentimetres(ShoulderPixels(sqrt, k), WaistPixels(sqrt, k), ArmPixels(sqrt, k), LegPixels(sqrt, k), ratio))
  }

  /** The successful case of `Calculate`, unfolded once for the proofs below. */
  lemma CalculateComputed(sqrt: real -> real, k: seq<Point>, heightCm: real)
    requires |k| >= KeypointCount && PixelHeight(k) != 0.0
    ensures Calculate(sqrt, Some(k), heightCm) ==
      Computed(ToCentimetres(ShoulderPixels(sqrt, k), WaistPixels(sqrt, k), ArmPixels(sqrt, k), LegPixels(sqrt, k),
                             CalibrationRatio(k, heightCm)))
  {
  }

  // ---------------------------------------------------------------------------
  // Properties of the calculator

  /**
   * On success every length is its pixel length converted so that the shoulder-to-ankle
   * span counts as 80% of the stated height: length * span_px == 0.8 * height * length_px.
   */
  lemma CalibratedLengths(sqrt: real -> real, k: seq<Point>, heightCm: real)
    requires |k| >= KeypointCount
    ensures var r := Calculate(sqrt, Some(k), heightCm);
      var span := BodyHeightFraction * heightCm;
      r.Computed? ==>
        && r.m.shoulderWidth * PixelHeight(k) == span * ShoulderPixels(sqrt, k)
        && r.m.waistWidth * PixelHeight(k) == span * WaistPixels(sqrt, k)
        && r.m.armLength * PixelHeight(k) == span * ArmPixels(sqrt, k)
        && r.m.legLength * PixelHeight(k) == span * LegPixels(sqrt, k)
  {
    if PixelHeight(k) != 0.0 {
      CalculateComputed(sqrt, k, heightCm);
      ConversionCalibrated(ShoulderPixels(sqrt, k), WaistPixels(sqrt, k), ArmPixels(sqrt, k), LegPixels(sqrt, k),
                           CalibrationRatio(k, heightCm), PixelHeight(k), BodyHeightFraction * heightCm);
    }
  }

  /** Converting with a ratio that maps `span` pixels to `spanCm` centimetres. */
  lemma ConversionCalibrated(a: real, b: real, c: real, d: real, ratio: real, span: real, spanCm: real)
    requires ratio * span == spanCm
    ensures var m := ToCentimetres(a, b, c, d, ratio);
      && m.shoulderWidth * span == spanCm * a
      && m.waistWidth * span == spanCm * b
      && m.armLength * span == spanCm * c
      && m.legLength * span == spanCm * d
  {
    assert (a * ratio) * span == a * (ratio * span);
    assert (b * ratio) * span == b * (ratio * span);
    assert (c * ratio) * span == c * (ratio * span);
    assert (d * ratio) * span == d * (ratio * span);
  }

  /** Every measurement is non-negative when the stated height is. */
  lemma MeasurementsNonNegative(sqrt: real -> real, keypoints: Option<seq<Point>>, heightCm: real)
    requires IsSqrt(sqrt) && heightCm >= 0.0
    ensures var r := Calculate(sqrt, keypoints, heightCm);
      r.Computed? ==>
        && r.m.shoulderWidth >= 0.0 && r.m.waistWidth >= 0.0
        && r.m.armLength >= 0.0 && r.m.legLength >= 0.0
        && r.m.chestCircumference >= 0.0 && r.m.waistCircumference >= 0.0
  {
    if keypoints.Some? && |keypoints.value| >= KeypointCount && PixelHeight(keypoints.value) != 0.0 {
      var k := keypoints.value;
      var ratio := CalibrationRatio(k, heightCm);
      DistanceNonNegative(sqrt, k[LeftShoulder], k[RightShoulder]);
      DistanceNonNegative(sqrt, k[LeftHip], k[RightHip]);
      DistanceNonNegative(sqrt, k[LeftShoulder], k[LeftElbow]);
      DistanceNonNegative(sqrt, k[LeftElbow], k[LeftWrist]);
      DistanceNonNegative(sqrt, k[RightShoulder], k[RightElbow]);
      DistanceNonNegative(sqrt, k[RightElbow], k[RightWrist]);
      DistanceNonNegative(sqrt, k[LeftHip], k[LeftKnee]);
      DistanceNonNegative(sqrt, k[LeftKnee], k[LeftAnkle]);
      DistanceNonNegative(sqrt, k[RightHip], k[RightKnee]);
      DistanceNonNegative(sqrt, k[RightKnee], k[RightAnkle]);
      assert ArmPixels(sqrt, k) >= 0.0 && LegPixels(sqrt, k) >= 0.0;
      NonNegativeProduct(PixelDistance(sqrt, k[LeftShoulder], k[RightShoulder]), ratio);
      NonNegativeProduct(PixelDistance(sqrt, k[LeftHip], k[RightHip]), ratio);
      NonNegativeProduct(ArmPixels(sqrt, k), ratio);
      NonNegativeProduct(LegPixels(sqrt, k), ratio);
    }
  }

  lemma NonNegativeProduct(a: real, b: real)
    requires a >= 0.0 && b >= 0.0
    ensures a * b >= 0.0 && (a * b) * Pi >= 0.0 && (a * b) * Pi * ChestCorrection >= 0.0
  {
  }

  /** The keypoint index of the same landmark on the other side of the body. */
  function MirrorIndex(i: nat): (j: nat)
    ensures i < KeypointCount ==> j < KeypointCount
    ensures i >= KeypointCount ==> j == i
  {
    if 1 <= i < KeypointCount then (if i % 2 == 1 then i + 1 else i - 1) else i
  }

  /** The keypoints with every left landmark exchanged for its right counterpart. */
  function Mirror(k: seq<Point>): (m: seq<Point>)
    requires |k| >= KeypointCount
    ensures |m| == |k|
  {
    seq(|k|, i requires 0 <= i < |k| => k[MirrorIndex(i)])
  }

  /**
   * Exchanging the left and right landmarks changes nothing: widths are symmetric
   * distances, lengths average the two sides, and the calibration averages both sides.
   */
  lemma MirrorInvariant(sqrt: real -> real, k: seq<Point>, heightCm: real)
    requires |k| >= KeypointCount
    ensures Calculate(sqrt, Some(Mirror(k)), heightCm) == Calculate(sqrt, Some(k), heightCm)
  {
    var m := Mirror(k);
    assert m[LeftShoulder] == k[RightShoulder] && m[RightShoulder] == k[LeftShoulder];
    assert m[LeftElbow] == k[RightElbow] && m[RightElbow] == k[LeftElbow];
    assert m[LeftWrist] == k[RightWrist] && m[RightWrist] == k[LeftWrist];
    assert m[LeftHip] == k[RightHip] && m[RightHip] == k[LeftHip];
    assert m[LeftKnee] == k[RightKnee] && m[RightKnee] == k[LeftKnee];
    assert m[LeftAnkle] == k[RightAnkle] && m[RightAnkle] == k[LeftAnkle];
    assert PixelHeight(m) == PixelHeight(k);
    DistanceSymmetric(sqrt, k[LeftShoulder], k[RightShoulder]);
    DistanceSymmetric(sqrt, k[LeftHip], k[RightHip]);
    assert ArmPixels(sqrt, m) == ArmPixels(sqrt, k);
    assert LegPixels(sqrt, m) == LegPixels(sqrt, k);
  }

  /** The six values, each multiplied by `c`. */
  function Times(m: Measurements, c: real): Measurements {
    Measurements(
      c * m.shoulderWidth, c * m.waistWidth, c * m.armLength, c * m.legLength,
      c * m.chestCircumference, c * m.waistCircumference)
  }

  /** Equal products with a non-zero factor have equal cofactors. */
  lemma CancelFactor(a: real, b: real, c: real)
    requires c != 0.0 && a * c == b * c
    ensures a == b
  {
    assert (a - b) * c == 0.0;
    assert a - b == ((a - b) * c) / c;
  }

  /** The ratio is linear in the stated height. */
  lemma RatioLinearInHeight(k: seq<Point>, heightCm: real)
    requires |k| >= KeypointCount && PixelHeight(k) != 0.0
    ensures CalibrationRatio(k, heightCm) == heightCm * CalibrationRatio(k, 1.0)
  {
    var ph := PixelHeight(k);
    var r, r1 := CalibrationRatio(k, heightCm), CalibrationRatio(k, 1.0);
    assert r1 * ph == BodyHeightFraction;
    assert (heightCm * r1) * ph == heightCm * (r1 * ph);
    CancelFactor(r, heightCm * r1, ph);
  }

  /** Converting with `h` times a ratio is `h` times converting with the ratio. */
  lemma ConversionLinear(a: real, b: real, c: real, d: real, r1: real, h: real)
    ensures ToCentimetres(a, b, c, d, h * r1) == Times(ToCentimetres(a, b, c, d, r1), h)
  {
    assert a * (h * r1) == h * (a * r1);
    assert b * (h * r1) == h * (b * r1);
    assert c * (h * r1) == h * (c * r1);
    assert d * (h * r1) == h * (d * r1);
    assert h * (a * r1) * Pi * ChestCorrection == h * (a * r1 * Pi * ChestCorrection);
    assert h * (b * r1) * Pi == h * (b * r1 * Pi);
  }

  /**
   * Holding the keypoints fixed, success does not depend on the height, and every
   * value is the stated height times the value for a height of 1 cm.
   */
  lemma ProportionalToHeight(sqrt: real -> real, keypoints: Option<seq<Point>>, heightCm: real)
    ensures Calculate(sqrt, keypoints, heightCm).Computed? <==> Calculate(sqrt, keypoints, 1.0).Computed?
    ensures Calculate(sqrt, keypoints, heightCm).Computed? ==>
      Calculate(sqrt, keypoints, heightCm).m == Times(Calculate(sqrt, keypoints, 1.0).m, heightCm)
  {
    if keypoints.Some? && |keypoints.value| >= KeypointCount && PixelHeight(keypoints.value) != 0.0 {
      var k := keypoints.value;
      CalculateComputed(sqrt, k, heightCm);
      CalculateComputed(sqrt, k, 1.0);
      RatioLinearInHeight(k, heightCm);
      ConversionLinear(ShoulderPixels(sqrt, k), WaistPixels(sqrt, k), ArmPixels(sqrt, k), LegPixels(sqrt, k),
                       CalibrationRatio(k, 1.0), heightCm);
    }
  }

  /** A taller stated height never gives a smaller measurement (negative heights included). */
  lemma MonotoneInHeight(sqrt: real -> real, keypoints: Option<seq<Point>>, h1: real, h2: real)
    requires IsSqrt(sqrt) && h1 <= h2
    ensures var r1, r2 := Calculate(sqrt, keypoints, h1), Calculate(sqrt, keypoints, h2);
      r1.Computed? ==>
        && r2.Computed?
        && r1.m.shoulderWidth <= r2.m.shoulderWidth && r1.m.waistWidth <= r2.m.waistWidth
        && r1.m.armLength <= r2.m.armLength && r1.m.legLength <= r2.m.legLength
        && r1.m.chestCircumference <= r2.m.chestCircumference
        && r1.m.waistCircumference <= r2.m.waistCircumference
  {
    var unit := Calculate(sqrt, keypoints, 1.0);
    ProportionalToHeight(sqrt, keypoints, h1);
    ProportionalToHeight(sqrt, keypoints, h2);
    MeasurementsNonNegative(sqrt, keypoints, 1.0);
    if unit.Computed? {
      TimesMonotone(unit.m, h1, h2);
    }
  }

  /** Scaling non-negative measurements by a larger factor never makes one smaller. */
  lemma TimesMonotone(u: Measurements, h1: real, h2: real)
    requires h1 <= h2
    requires u.shoulderWidth >= 0.0 && u.waistWidth >= 0.0 && u.armLength >= 0.0 && u.legLength >= 0.0
    requires u.chestCircumference >= 0.0 && u.waistCircumference >= 0.0
    ensures var a, b := Times(u, h1), Times(u, h2);
      && a.shoulderWidth <= b.shoulderWidth && a.waistWidth <= b.waistWidth
      && a.armLength <= b.armLength && a.legLength <= b.legLength
      && a.chestCircumference <= b.chestCircumference && a.waistCircumference <= b.waistCircumference
  {
    MultiplyMonotone(u.shoulderWidth, h1, h2);
    MultiplyMonotone(u.waistWidth, h1, h2);
    MultiplyMonotone(u.armLength, h1, h2);
    MultiplyMonotone(u.legLength, h1, h2);
    MultiplyMonotone(u.chestCircumference, h1, h2);
    MultiplyMonotone(u.waistCircumference, h1, h2);
  }

  lemma MultiplyMonotone(v: real, h1: real, h2: real)
    requires v >= 0.0 && h1 <= h2
    ensures h1 * v <= h2 * v
  {
    assert h2 * v - h1 * v == (h2 - h1) * v;
  }

  /** Every keypoint with both coordinates multiplied by `s`. */
  function StretchAll(k: seq<Point>, s: real): (r: seq<Point>)
    ensures |r| == |k|
  {
    if k == [] then [] else [Stretch(k[0], s)] + StretchAll(k[1..], s)
  }

  lemma {:induction false} StretchAllAt(k: seq<Point>, s: real, i: nat)
    requires i < |k|
    ensures StretchAll(k, s)[i] == Stretch(k[i], s)
  {
    if i > 0 {
      StretchAllAt(k[1..], s, i - 1);
    }
  }

  lemma PixelHeightScales(k: seq<Point>, s: real)
    requires |k| >= KeypointCount && s > 0.0
    ensures PixelHeight(StretchAll(k, s)) == s * PixelHeight(k)
  {
    var K := StretchAll(k, s);
    StretchAllAt(k, s, LeftAnkle);
    StretchAllAt(k, s, RightAnkle);
    StretchAllAt(k, s, LeftShoulder);
    StretchAllAt(k, s, RightShoulder);
    MidYScales(k[LeftAnkle], k[RightAnkle], s);
    MidYScales(k[LeftShoulder], k[RightShoulder], s);
    var a, b := MidY(k[LeftAnkle], k[RightAnkle]), MidY(k[LeftShoulder], k[RightShoulder]);
    DifferenceScales(a, b, s);
    AbsScales(a - b, s);
  }

  lemma MidYScales(p: Point, q: Point, s: real)
    ensures MidY(Stretch(p, s), Stretch(q, s)) == s * MidY(p, q)
  {
    assert s * p.y + s * q.y == s * (p.y + q.y);
  }

  lemma DifferenceScales(a: real, b: real, s: real)
    ensures s * a - s * b == s * (a - b)
  {
  }

  lemma AbsScales(v: real, s: real)
    requires s > 0.0
    ensures Abs(s * v) == s * Abs(v)
  {
    if v < 0.0 {
      assert s * v < 0.0;
      assert s * -v == -(s * v);
    } else {
      assert s * v >= 0.0;
    }
  }

  /** Pixel lengths stretched by `s` and converted with the ratio shrunk by `s` convert as before. */
  lemma ConversionCancelsStretch(a: real, b: real, c: real, d: real, s: real, ratio: real,
                                 a': real, b': real, c': real, d': real, ratioK: real)
    requires a' == s * a && b' == s * b && c' == s * c && d' == s * d && ratioK * s == ratio
    ensures ToCentimetres(a', b', c', d', ratioK) == ToCentimetres(a, b, c, d, ratio)
  {
    assert (s * a) * ratioK == a * (ratioK * s);
    assert (s * b) * ratioK == b * (ratioK * s);
    assert (s * c) * ratioK == c * (ratioK * s);
    assert (s * d) * ratioK == d * (ratioK * s);
  }

  /** A chain between stretched keypoints is the stretched chain. */
  lemma ChainScales(sqrt: real -> real, k: seq<Point>, s: real, a: nat, b: nat, c: nat)
    requires IsSqrt(sqrt) && s > 0.0 && a < |k| && b < |k| && c < |k|
    ensures ChainLength(sqrt, StretchAll(k, s), a, b, c) == s * ChainLength(sqrt, k, a, b, c)
  {
    var K := StretchAll(k, s);
    StretchAllAt(k, s, a);
    StretchAllAt(k, s, b);
    StretchAllAt(k, s, c);
    DistanceScales(sqrt, k[a], k[b], s);
    DistanceScales(sqrt, k[b], k[c], s);
    var d1, d2 := PixelDistance(sqrt, k[a], k[b]), PixelDistance(sqrt, k[b], k[c]);
    assert s * d1 + s * d2 == s * (d1 + d2);
  }

  lemma HalfSumScales(a: real, b: real, s: real, mean: real)
    requires mean == (a + b) / 2.0
    ensures (s * a + s * b) / 2.0 == s * mean
  {
  }

  /** Shoulder and waist widths, in pixels, stretch with the keypoints. */
  lemma WidthsScale(sqrt: real -> real, k: seq<Point>, s: real)
    requires IsSqrt(sqrt) && s > 0.0 && |k| >= KeypointCount
    ensures ShoulderPixels(sqrt, StretchAll(k, s)) == s * ShoulderPixels(sqrt, k)
    ensures WaistPixels(sqrt, StretchAll(k, s)) == s * WaistPixels(sqrt, k)
  {
    StretchAllAt(k, s, LeftShoulder);
    StretchAllAt(k, s, RightShoulder);
    StretchAllAt(k, s, LeftHip);
    StretchAllAt(k, s, RightHip);
    DistanceScales(sqrt, k[LeftShoulder], k[RightShoulder], s);
    DistanceScales(sqrt, k[LeftHip], k[RightHip], s);
  }

  /** The arm length, in pixels, stretches with the keypoints. */
  lemma ArmScales(sqrt: real -> real, k: seq<Point>, s: real)
    requires IsSqrt(sqrt) && s > 0.0 && |k| >= KeypointCount
    ensures ArmPixels(sqrt, StretchAll(k, s)) == s * ArmPixels(sqrt, k)
  {
    ChainScales(sqrt, k, s, LeftShoulder, LeftElbow, LeftWrist);
    ChainScales(sqrt, k, s, RightShoulder, RightElbow, RightWrist);
    HalfSumScales(ChainLength(sqrt, k, LeftShoulder, LeftElbow, LeftWrist),
                  ChainLength(sqrt, k, RightShoulder, RightElbow, RightWrist), s, ArmPixels(sqrt, k));
  }

  /** The leg length, in pixels, stretches with the keypoints. */
  lemma LegScales(sqrt: real -> real, k: seq<Point>, s: real)
    requires IsSqrt(sqrt) && s > 0.0 && |k| >= KeypointCount
    ensures LegPixels(sqrt, StretchAll(k, s)) == s * LegPixels(sqrt, k)
  {
    ChainScales(sqrt, k, s, LeftHip, LeftKnee, LeftAnkle);
    ChainScales(sqrt, k, s, RightHip, RightKnee, RightAnkle);
    HalfSumScales(ChainLength(sqrt, k, LeftHip, LeftKnee, LeftAnkle),
                  ChainLength(sqrt, k, RightHip, RightKnee, RightAnkle), s, LegPixels(sqrt, k));
  }

  /** Stretching the keypoints by `s` divides the ratio by `s`. */
  lemma RatioScales(k: seq<Point>, s: real, heightCm: real)
    requires |k| >= KeypointCount && s > 0.0 && PixelHeight(k) != 0.0
    ensures PixelHeight(StretchAll(k, s)) != 0.0
    ensures CalibrationRatio(StretchAll(k, s), heightCm) * s == CalibrationRatio(k, heightCm)
  {
    var K := StretchAll(k, s);
    PixelHeightScales(k, s);
    var ph := PixelHeight(k);
    var ratio, ratioK := CalibrationRatio(k, heightCm), CalibrationRatio(K, heightCm);
    assert ratioK * (s * ph) == BodyHeightFraction * heightCm;
    assert (ratioK * s) * ph == ratioK * (s * ph);
    CancelFactor(ratioK * s, ratio, ph);
  }

  /** The successful case of scale invariance. */
  lemma StretchedComputed(sqrt: real -> real, k: seq<Point>, s: real, heightCm: real)
    requires IsSqrt(sqrt) && s > 0.0 && |k| >= KeypointCount && PixelHeight(k) != 0.0
    ensures PixelHeight(StretchAll(k, s)) != 0.0
    ensures Calculate(sqrt, Some(StretchAll(k, s)), heightCm) == Calculate(sqrt, Some(k), heightCm)
  {
    var K := StretchAll(k, s);
    RatioScales(k, s, heightCm);
    CalculateComputed(sqrt, k, heightCm);
    CalculateComputed(sqrt, K, heightCm);
    WidthsScale(sqrt, k, s);
    ArmScales(sqrt, k, s);
    LegScales(sqrt, k, s);
    ConversionCancelsStretch(
      ShoulderPixels(sqrt, k), WaistPixels(sqrt, k), ArmPixels(sqrt, k), LegPixels(sqrt, k), s,
      CalibrationRatio(k, heightCm),
      ShoulderPixels(sqrt, K), WaistPixels(sqrt, K), ArmPixels(sqrt, K), LegPixels(sqrt, K),
      CalibrationRatio(K, heightCm));
  }

  /**
   * The calibration cancels the picture's scale: stretching every keypoint by a
   * factor `s > 0` leaves the outcome, and every measurement, unchanged.
   */
  lemma ScaleInvariant(sqrt: real -> real, k: seq<Point>, s: real, heightCm: real)
    requires IsSqrt(sqrt) && s > 0.0
    ensures Calculate(sqrt, Some(StretchAll(k, s)), heightCm) == Calculate(sqrt, Some(k), heightCm)
  {
    if |k| >= KeypointCount {
      if PixelHeight(k) != 0.0 {
        StretchedComputed(sqrt, k, s, heightCm);
      } else {
        PixelHeightScales(k, s);
      }
    }
  }

  /**
   * A worked case: shoulders 40 px apart, hips 30 px apart and a 200 px shoulder-to-ankle
   * span, for a stated height of 180 cm, give 0.72 cm per pixel, a 28.8 cm shoulder width,
   * a 21.6 cm waist width and a waist circumference of 21.6 pi.
   */
  lemma WorkedExample(sqrt: real -> real, rest: Point)
    requires IsSqrt(sqrt)
    ensures
      var k := [rest, rest, rest, rest, rest,
                Point(100.0, 50.0), Point(140.0, 50.0),
                rest, rest, rest, rest,
                Point(105.0, 150.0), Point(135.0, 150.0),
                rest, rest,
                Point(100.0, 250.0), Point(140.0, 250.0)];
      var r := Calculate(sqrt, Some(k), 180.0);
      && PixelHeight(k) == 200.0
      && CalibrationRatio(k, 180.0) == 0.72
      && r.Computed?
      && r.m.shoulderWidth == 28.8
      && r.m.waistWidth == 21.6
      && r.m.waistCircumference == 21.6 * Pi
  {
    var k := [rest, rest, rest, rest, rest,
              Point(100.0, 50.0), Point(140.0, 50.0),
              rest, rest, rest, rest,
              Point(105.0, 150.0), Point(135.0, 150.0),
              rest, rest,
              Point(100.0, 250.0), Point(140.0, 250.0)];
    assert SquaredDistance(k[LeftShoulder], k[RightShoulder]) == 40.0 * 40.0;
    assert SquaredDistance(k[LeftHip], k[RightHip]) == 30.0 * 30.0;
    SqrtOfSquare(sqrt, 40.0);
    SqrtOfSquare(sqrt, 30.0);
    CalculateComputed(sqrt, k, 180.0);
  }
}
