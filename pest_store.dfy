/** The per-point analysis tail and the process-wide store of its results:
    a dictionary keyed by the coordinate alone, written once per successful
    run, last write wins. */
module PestStore {
  import opened Wrappers
  import opened Raster
  import opened PestDetection

  /** The store key: the coordinate pair, without the date range. */
  datatype Coord = Coord(lat: real, lon: real)

  /** A stored result: the coordinate, the diseased and healthy percentages
      and the colour of the tier (the status name is not stored). */
  datatype PestRecord = PestRecord(lat: real, lon: real, diseasedArea: real, healthyArea: real, color: string)

  /** What every stored record satisfies: it sits under its own coordinate,
      its diseased share is a percentage, the two shares add up to 100 and
      its colour is the ladder's colour for the diseased share. */
  predicate WellFormed(key: Coord, rec: PestRecord) {
    && rec.lat == key.lat && rec.lon == key.lon
    && 0.0 <= rec.diseasedArea <= 100.0
    && rec.diseasedArea + rec.healthyArea == 100.0
    && rec.color == Classify(rec.diseasedArea).Color()
  }

  /** The edge and Laplacian filters return a map of their input's shape. */
  ghost predicate ShapePreserving(filter: Raster -> Raster) {
    forall g: Raster :: SameShape(filter(g), g)
  }

  /** The result of one run at (lat, lon). `acquired` is the grayscale NDVI
      raster, or None when acquisition or download failed; `canny` and
      `laplacian` stand for the two OpenCV filters. A run fails exactly when
      there is no raster or the raster is empty, and a successful run yields
      a well-formed record for its coordinate whose diseased share is the
      affected share of the fused filter maps. */
  function AnalyzePoint(lat: real, lon: real, acquired: Option<Raster>,
                        canny: Raster -> Raster, laplacian: Raster -> Raster): (r: Option<PestRecord>)
    requires ShapePreserving(canny) && ShapePreserving(laplacian)
    ensures r.Some? <==> acquired.Some? && acquired.value.Size() > 0
    ensures r.Some? ==> WellFormed(Coord(lat, lon), r.value)
    ensures r.Some? ==>
      var fused := AddWeighted(canny(acquired.value), laplacian(acquired.value));
      && fused.Some? && fused.value.Size() > 0
      && r.value.diseasedArea == PestDensity(fused.value)
  {
    match acquired
    case None => None
    case Some(image) =>
      if image.Size() == 0 then None
      else
        var edges, lap := canny(image), laplacian(image);
        match Detect(edges, lap)
        case None => None
        case Some(d) => Some(PestRecord(lat, lon, d.density, d.healthyArea, d.tier.Color()))
  }

  /** A non-empty raster whose edge map has no edge pixel is stored as
      0 % diseased, 100 % healthy, green. */
  lemma AnalyzeEdgeFree(lat: real, lon: real, image: Raster,
                        canny: Raster -> Raster, laplacian: Raster -> Raster)
    requires ShapePreserving(canny) && ShapePreserving(laplacian)
    requires image.Size() > 0
    requires forall k :: 0 <= k < |canny(image).pixels| ==> canny(image).pixels[k] == 0
    ensures AnalyzePoint(lat, lon, Some(image), canny, laplacian)
      == Some(PestRecord(lat, lon, 0.0, 100.0, "green"))
  {
    EdgeFreeIsHealthy(canny(image), laplacian(image));
  }

  /** The colour a run stores, in whole pixel counts: with n affected fused
      pixels out of t, green iff 10n < t, yellow iff t <= 10n < 3t, red iff
      3t <= 10n. */
  lemma AnalyzeColorByCount(lat: real, lon: real, image: Raster,
                            canny: Raster -> Raster, laplacian: Raster -> Raster)
    requires ShapePreserving(canny) && ShapePreserving(laplacian)
    requires image.Size() > 0
    ensures AddWeighted(canny(image), laplacian(image)).Some?
    ensures var r := AnalyzePoint(lat, lon, Some(image), canny, laplacian);
      var n := CountAffected(AddWeighted(canny(image), laplacian(image)).value.pixels);
      var t := image.Size();
      && r.Some?
      && (r.value.color == "green" <==> 10 * n < t)
      && (r.value.color == "yellow" <==> t <= 10 * n < 3 * t)
      && (r.value.color == "red" <==> 3 * t <= 10 * n)
  {
    var edges, lap := canny(image), laplacian(image);
    assert SameShape(edges, image) && SameShape(lap, image);
    var fused := AddWeighted(edges, lap).value;
    TierByCount(fused);
    var r := AnalyzePoint(lat, lon, Some(image), canny, laplacian);
    assert r.value.color == Classify(PestDensity(fused)).Color();
  }

  function Get(m: map<Coord, PestRecord>, key: Coord): Option<PestRecord> {
    if key in m then Some(m[key]) else None
  }

  /** The store after one run: a successful run writes its record under its
      coordinate, a failed run writes nothing. */
  function Written(m: map<Coord, PestRecord>, key: Coord, outcome: Option<PestRecord>): map<Coord, PestRecord> {
    if outcome.Some? then m[key := outcome.value] else m
  }

  /** One finished run: the request's coordinate and date range, and what the
      run produced. */
  datatype Run = Run(lat: real, lon: real, startDate: string, endDate: string, outcome: Option<PestRecord>)
  {
    function Key(): Coord {
      Coord(lat, lon)
    }
  }

  /** The store after a series of runs, in order. */
  function Replay(m: map<Coord, PestRecord>, runs: seq<Run>): map<Coord, PestRecord>
    decreases |runs|
  {
    if runs == [] then m
    else Replay(Written(m, runs[0].Key(), runs[0].outcome), runs[1..])
  }

  /** Reference definition of last-write-wins: the entry for `key` is the
      record of the latest successful run at that coordinate, whatever its
      date range, or the initial entry when there is none. */
  function LatestAt(m: map<Coord, PestRecord>, runs: seq<Run>, key: Coord): Option<PestRecord>
    decreases |runs|
  {
    if runs == [] then Get(m, key)
    else
      var last := runs[|runs| - 1];
      if last.Key() == key && last.outcome.Some? then last.outcome
      else LatestAt(m, runs[..|runs| - 1], key)
  }

  lemma {:induction false} ReplaySnoc(m: map<Coord, PestRecord>, runs: seq<Run>, run: Run)
    ensures Replay(m, runs + [run]) == Written(Replay(m, runs), run.Key(), run.outcome)
    decreases |runs|
  {
    if runs != [] {
      assert (runs + [run])[1..] == runs[1..] + [run];
      ReplaySnoc(Written(m, runs[0].Key(), runs[0].outcome), runs[1..], run);
    }
  }

  /** Replaying runs leaves under each coordinate exactly the record of the
      latest successful run there, and leaves untouched every coordinate no
      successful run wrote. */
  lemma {:induction false} ReplayIsLatest(m: map<Coord, PestRecord>, runs: seq<Run>, key: Coord)
    ensures Get(Replay(m, runs), key) == LatestAt(m, runs, key)
    decreases |runs|
  {
    if runs != [] {
      var init, last := runs[..|runs| - 1], runs[|runs| - 1];
      assert runs == init + [last];
      ReplaySnoc(m, init, last);
      ReplayIsLatest(m, init, key);
    }
  }

  /** Two successful runs at the same coordinate with any date ranges: only
      the second record survives, and the store gains at most that one key. */
  lemma SameCoordinateCollides(m: map<Coord, PestRecord>, first: Run, second: Run)
    requires first.Key() == second.Key()
    requires first.outcome.Some? && second.outcome.Some?
    ensures Replay(m, [first, second]) == m[second.Key() := second.outcome.value]
  {
    var key := second.Key();
    var once := Written(m, key, first.outcome);
    assert [first, second][1..] == [second];
    assert Replay(m, [first, second]) == Replay(once, [second]);
    assert [second][1..] == [];
    assert Replay(once, [second]) == once[key := second.outcome.value];
  }

  /** The process-wide dictionary of pest results. */
  class PestDataStore {
    var entries: map<Coord, PestRecord>

    /** Every entry is a well-formed record under its own coordinate. */
    ghost predicate Valid()
      reads this
    {
      forall key :: key in entries ==> WellFormed(key, entries[key])
    }

    /** The store starts empty. */
    constructor ()
      ensures entries == map[] && Valid()
    {
      entries := map[];
    }

    /** Keyed assignment: `key` now maps to `rec`; every other key keeps its
        entry or its absence. */
    method Put(key: Coord, rec: PestRecord)
      modifies this
      ensures entries == old(entries)[key := rec]
      ensures forall k :: k != key ==> Get(entries, k) == Get(old(entries), k)
    {
      entries := entries[key := rec];
    }

    /** The pest-detection tail of one analysis run at (lat, lon) over the
        date range, which only shapes `acquired`. Returns the stored record,
        or None on every failure path, in which case the store is unchanged. */
    method GenerateNdviPlot(lat: real, lon: real, startDate: string, endDate: string,
                            acquired: Option<Raster>,
                            canny: Raster -> Raster, laplacian: Raster -> Raster)
      returns (result: Option<PestRecord>)
      requires Valid()
      requires ShapePreserving(canny) && ShapePreserving(laplacian)
      modifies this
      ensures Valid()
      ensures result == AnalyzePoint(lat, lon, acquired, canny, laplacian)
      ensures entries == Written(old(entries), Coord(lat, lon), result)
      ensures result.Some? ==> Coord(lat, lon) in entries && entries[Coord(lat, lon)] == result.value
    {
      if acquired.None? {
        return None;
      }
      var image := acquired.value;
      if image.Size() == 0 {
        return None;
      }
      var edges := canny(image);
      var lap := laplacian(image);
      // Both filters keep the image's shape, so the fusion cannot raise.
      assert SameShape(edges, image) && SameShape(lap, image);
      var d := Detect(edges, lap).value;
      var key := Coord(lat, lon);
      Put(key, PestRecord(lat, lon, d.density, d.healthyArea, d.tier.Color()));
      result := Some(entries[key]);
    }
  }
}
