/** Pest-density scoring: fuse an edge map with a Laplacian map, count the
    pixels whose fused value exceeds the threshold, turn the count into a
    percentage and classify it on a three-tier ladder. */
module PestDetection {
  import opened Wrappers
  import opened Raster

  // ---------------------------------------------------------------------
  // Fusion (cv2.addWeighted(edges, 0.7, laplacian, 0.3, 0))
  // ---------------------------------------------------------------------

  /** The fusion weights, in tenths. */
  const EdgeWeightTenths: int := 7
  const LaplacianWeightTenths: int := 3

  /** Clamp to the unsigned 8-bit range. */
  function Saturate(x: int): Byte {
    if x < 0 then 0 else if x > 255 then 255 else x
  }

  /** The integer nearest to x / 10, halves rounded upward. */
  function RoundTenths(x: int): int {
    (x + 5) / 10
  }

  /** One fused pixel: the integer nearest to 0.7 * e + 0.3 * l, saturated to
      0..255. The contract says the result is that nearest integer, so the
      saturation never changes a value computed from two bytes. */
  function FusePixel(e: Byte, l: Byte): (f: Byte)
    ensures -5 <= EdgeWeightTenths * e + LaplacianWeightTenths * l - 10 * f < 5
  {
    Saturate(RoundTenths(EdgeWeightTenths * e + LaplacianWeightTenths * l))
  }

  function FusePixels(a: seq<Byte>, b: seq<Byte>): (r: seq<Byte>)
    requires |a| == |b|
    ensures |r| == |a|
    ensures forall k :: 0 <= k < |r| ==> r[k] == FusePixel(a[k], b[k])
  {
    seq(|a|, k requires 0 <= k < |a| => FusePixel(a[k], b[k]))
  }

  /** Weighted sum of two rasters. OpenCV raises when the shapes differ;
      that is the None case. */
  function AddWeighted(edges: Raster, laplacian: Raster): (r: Option<Raster>)
    ensures r.Some? <==> SameShape(edges, laplacian)
    ensures r.Some? ==> SameShape(r.value, edges)
    ensures r.Some? ==>
      forall k :: 0 <= k < |r.value.pixels| ==>
        r.value.pixels[k] == FusePixel(edges.pixels[k], laplacian.pixels[k])
  {
    if SameShape(edges, laplacian) then
      Some(Grid(edges.height, edges.width, FusePixels(edges.pixels, laplacian.pixels)))
    else
      None
  }

  // ---------------------------------------------------------------------
  // Affected-pixel count (np.sum(pest_detection > 100))
  // ---------------------------------------------------------------------

  const AffectedThreshold: int := 100

  /** A pixel is affected when its fused value is strictly above 100. */
  predicate Affected(p: Byte) {
    p > AffectedThreshold
  }

  /** The number of affected pixels in a buffer. */
  function CountAffected(px: seq<Byte>): (n: nat)
    ensures n <= |px|
    ensures n == 0 <==> forall k :: 0 <= k < |px| ==> !Affected(px[k])
    ensures n == |px| <==> forall k :: 0 <= k < |px| ==> Affected(px[k])
  {
    if px == [] then 0
    else
      var init := px[..|px| - 1];
      assert forall k :: 0 <= k < |init| ==> init[k] == px[k];
      CountAffected(init) + (if Affected(px[|px| - 1]) then 1 else 0)
  }

  /** Reference definition: the positions of the affected pixels. */
  ghost function AffectedIndices(px: seq<Byte>): set<int> {
    set k | 0 <= k < |px| && Affected(px[k])
  }

  /** The count is the number of affected positions. */
  lemma {:induction false} CountIsCardinality(px: seq<Byte>)
    ensures CountAffected(px) == |AffectedIndices(px)|
  {
    if px == [] {
      assert AffectedIndices(px) == {};
    } else {
      var last := |px| - 1;
      var init := px[..last];
      CountIsCardinality(init);
      var extra: set<int> := if Affected(px[last]) then {last} else {};
      assert AffectedIndices(px) == AffectedIndices(init) + extra;
      assert AffectedIndices(init) !! extra;
    }
  }

  /** Two buffers that agree on which pixels are affected have the same count. */
  lemma {:induction false} CountAgrees(a: seq<Byte>, b: seq<Byte>)
    requires |a| == |b|
    requires forall k :: 0 <= k < |a| ==> (Affected(a[k]) <==> Affected(b[k]))
    ensures CountAffected(a) == CountAffected(b)
  {
    if a != [] {
      CountAgrees(a[..|a| - 1], b[..|b| - 1]);
    }
  }

  // ---------------------------------------------------------------------
  // Density, healthy area and the status ladder
  // ---------------------------------------------------------------------

  /** (affected / total) * 100 for a non-empty fused raster, as a percentage
      between 0 and 100 that is 0 exactly when no pixel is affected and 100
      exactly when every pixel is. */
  function PestDensity(fused: Raster): (d: real)
    requires fused.Size() > 0
    ensures 0.0 <= d <= 100.0
    ensures d == 0.0 <==> CountAffected(fused.pixels) == 0
    ensures d == 100.0 <==> CountAffected(fused.pixels) == fused.Size()
  {
    var n := CountAffected(fused.pixels);
    PercentBounds(n, fused.Size());
    (n as real / fused.Size() as real) * 100.0
  }

  /** For n out of t with n <= t, (n / t) * 100 lies in [0, 100], is 0 exactly
      when n is 0 and 100 exactly when n is t. */
  lemma PercentBounds(n: nat, t: nat)
    requires 0 < t && n <= t
    ensures var p := (n as real / t as real) * 100.0;
      && 0.0 <= p <= 100.0
      && (p == 0.0 <==> n == 0)
      && (p == 100.0 <==> n == t)
  {
  }

  /** The complement of the density. */
  function HealthyArea(density: real): real {
    100.0 - density
  }

  /** The three tiers of the status ladder. */
  datatype Tier = Healthy | Moderate | Diseased
  {
    function Status(): string {
      match this
      case Healthy => "Healthy"
      case Moderate => "Moderate"
      case Diseased => "Diseased"
    }

    function Color(): string {
      match this
      case Healthy => "green"
      case Moderate => "yellow"
      case Diseased => "red"
    }

    /** 0 for the healthiest tier, 2 for the least healthy. */
    function Severity(): nat {
      match this
      case Healthy => 0
      case Moderate => 1
      case Diseased => 2
    }
  }

  const ModerateFrom: real := 10.0
  const DiseasedFrom: real := 30.0

  /** The status ladder as three half-open intervals: [.., 10), [10, 30),
      [30, ..); each boundary value belongs to the higher tier. */
  function Classify(density: real): (t: Tier)
    ensures t == Healthy <==> density < ModerateFrom
    ensures t == Moderate <==> ModerateFrom <= density < DiseasedFrom
    ensures t == Diseased <==> DiseasedFrom <= density
  {
    if density < ModerateFrom then Healthy
    else if density < DiseasedFrom then Moderate
    else Diseased
  }

  /** A larger density never gets a healthier tier. */
  lemma ClassifyMonotone(d1: real, d2: real)
    requires d1 <= d2
    ensures Classify(d1).Severity() <= Classify(d2).Severity()
  {
  }

  /** The ladder at and next to its boundaries, and the status and colour
      of each tier. */
  lemma ClassifyBoundaries()
    ensures Classify(9.999) == Healthy
    ensures Classify(10.0) == Moderate
    ensures Classify(29.999) == Moderate
    ensures Classify(30.0) == Diseased
    ensures Healthy.Status() == "Healthy" && Healthy.Color() == "green"
    ensures Moderate.Status() == "Moderate" && Moderate.Color() == "yellow"
    ensures Diseased.Status() == "Diseased" && Diseased.Color() == "red"
  {
  }

  /** Each tier has its own colour, so the stored colour identifies the tier. */
  lemma ColorIdentifiesTier(t1: Tier, t2: Tier)
    requires t1.Color() == t2.Color()
    ensures t1 == t2
  {
  }

  /** For n out of t, the percentage (n / t) * 100 is below a whole bound
      exactly when 100 n is below bound * t. */
  lemma PercentBelow(n: nat, t: nat, bound: nat)
    requires t > 0
    ensures ((n as real / t as real) * 100.0 < bound as real) <==> 100 * n < bound * t
  {
  }

  /** The tier of a raster in whole pixel counts: with n affected pixels out
      of t, Healthy iff 10n < t, Moderate iff t <= 10n < 3t, Diseased iff
      3t <= 10n. */
  lemma TierByCount(fused: Raster)
    requires fused.Size() > 0
    ensures var n, t := CountAffected(fused.pixels), fused.Size();
      && (Classify(PestDensity(fused)) == Healthy <==> 10 * n < t)
      && (Classify(PestDensity(fused)) == Moderate <==> t <= 10 * n < 3 * t)
      && (Classify(PestDensity(fused)) == Diseased <==> 3 * t <= 10 * n)
  {
    var n, t := CountAffected(fused.pixels), fused.Size();
    PercentBelow(n, t, 10);
    PercentBelow(n, t, 30);
  }

  // ---------------------------------------------------------------------
  // The whole detection step
  // ---------------------------------------------------------------------

  /** What the detection derives from one raster. */
  datatype Detection = Detection(density: real, healthyArea: real, tier: Tier)

  /** Fuse, count, score and classify. Defined whenever the two maps have
      the same shape (addWeighted raises otherwise); the density is the
      affected share of the fused map, it lies in [0, 100], density and
      healthy area add up to 100 and the tier is the ladder's tier for the
      density. */
  function Detect(edges: Raster, laplacian: Raster): (r: Option<Detection>)
    requires edges.Size() > 0
    ensures r.Some? <==> SameShape(edges, laplacian)
    ensures r.Some? ==>
      && 0.0 <= r.value.density <= 100.0
      && r.value.density + r.value.healthyArea == 100.0
      && r.value.tier == Classify(r.value.density)
    ensures r.Some? ==> r.value.density == PestDensity(AddWeighted(edges, laplacian).value)
  {
    match AddWeighted(edges, laplacian)
    case None => None
    case Some(fused) =>
      var d := PestDensity(fused);
      Some(Detection(d, HealthyArea(d), Classify(d)))
  }

  /** 0.3 * 255 rounds to 77, so where the edge map is 0 the fused pixel is
      never affected: an edge map with no edge pixel gives density 0 and
      Healthy. */
  lemma EdgeFreeIsHealthy(edges: Raster, laplacian: Raster)
    requires edges.Size() > 0 && SameShape(edges, laplacian)
    requires forall k :: 0 <= k < |edges.pixels| ==> edges.pixels[k] == 0
    ensures Detect(edges, laplacian) == Some(Detection(0.0, 100.0, Healthy))
  {
    var fused := AddWeighted(edges, laplacian).value;
    forall k | 0 <= k < |fused.pixels|
      ensures !Affected(fused.pixels[k])
    {
      var f: int := FusePixel(edges.pixels[k], laplacian.pixels[k]);
      var l: int := laplacian.pixels[k];
      assert 10 * f <= 3 * l + 5;
    }
    assert CountAffected(fused.pixels) == 0;
  }

  /** The Canny edge map is binary (0 or 255). */
  predicate IsBinary(edges: Raster) {
    forall k :: 0 <= k < |edges.pixels| ==> edges.pixels[k] == 0 || edges.pixels[k] == 255
  }

  /** With a binary edge map the Laplacian never decides: a fused pixel is
      affected exactly where the edge map has an edge, so the affected count
      is the number of edge pixels. */
  lemma BinaryEdgesDecide(edges: Raster, laplacian: Raster)
    requires SameShape(edges, laplacian) && IsBinary(edges)
    ensures AddWeighted(edges, laplacian).Some?
    ensures CountAffected(AddWeighted(edges, laplacian).value.pixels) == CountAffected(edges.pixels)
  {
    var fused := AddWeighted(edges, laplacian).value;
    forall k | 0 <= k < |fused.pixels|
      ensures Affected(fused.pixels[k]) <==> Affected(edges.pixels[k])
    {
      var e: int, l: int := edges.pixels[k], laplacian.pixels[k];
      var f: int := FusePixel(e, l);
      if e == 0 {
        assert 10 * f <= 3 * l + 5;
      } else {
        assert 10 * f >= 7 * 255 - 5;
      }
    }
    CountAgrees(fused.pixels, edges.pixels);
  }
}
