# Pest-density scoring and result store of the NDVI analysis

This project models the pest-detection tail of `generate_ndvi_plot` in
`ap.py`, together with the process-wide dictionary `pest_data_dict` it writes.
Once the grayscale NDVI raster of a point is available, the function does five things:

- it fuses an edge map (Canny) and a Laplacian map with weights 0.7 and 0.3;
- it counts the fused pixels above 100;
- it turns the count into a diseased percentage and a complementary healthy percentage;
- it classifies the percentage as Healthy/green (below 10), Moderate/yellow (10 up to 30) or Diseased/red (30 and above);
- it stores `{lat, lon, diseased_area, healthy_area, color}` under the coordinate and returns that entry.

Every failure returns `(None, None, None)` without touching the dictionary.
Failures include a failed download, an empty raster, and any exception raised earlier.

Modules:

- `Wrappers` (`wrappers.dfy`) holds `Option`, the "result or nothing" return.
- `Raster` (`raster.dfy`) defines a raster the way numpy holds it: a shape (height, width) and a flat, row-major buffer of bytes. `Size()` is numpy's `size`.
- `PestDetection` (`pest_detection.dfy`) holds pure functions and lemmas.
  - `FusePixel` and `AddWeighted` model `cv2.addWeighted` in tenths (`7e + 3l`), rounded to nearest and saturated.
  - `CountAffected` models `np.sum(pest_detection > 100)`.
  - `PestDensity` and `HealthyArea` give the two percentages.
  - `Classify` and `Tier` give the ladder.
  - `Detect` is the whole detection step.
- `PestStore` (`pest_store.dfy`) models the store and the pipeline.
  - `AnalyzePoint` is the pure result of one run.
  - The class `PestDataStore` holds the dictionary as a `map` field. `Put` is the keyed assignment. `GenerateNdviPlot` runs the checks, writes the entry and returns it.
  - `Replay` and `LatestAt` describe a sequence of runs: the store keeps the latest successful write per coordinate.

Inputs that stand in for code outside the model:

- `acquired: Option<Raster>` is the downloaded, decoded raster. `None` stands for any failure before it: the Earth Engine query, the export, or the download.
- `canny` and `laplacian` are function parameters standing for `cv2.Canny` and for `np.uint8(np.absolute(cv2.Laplacian(...)))`. The only thing required of them is that they return a map of their input's shape, as OpenCV does.

Behaviour of the code worth noting:

- The stored record carries the colour but not the status name; the status is computed and then dropped (ap.py:201-209, 216-221).
- Every failure collapses to `(None, None, None)`, one "no result" value with no reason attached.
- The store key is the coordinate alone, so two runs at one coordinate with different date ranges overwrite each other (`SameCoordinateCollides`).

## Model

| member | source | states |
|---|---|---|
| `PestDetection.FusePixel` | ap.py:192 | the fused pixel is the integer nearest to 0.7·edge + 0.3·laplacian; it stays in 0..255, so saturation never changes it |
| `PestDetection.AddWeighted` | ap.py:192 | fusion is defined exactly when the two maps have the same shape (OpenCV raises otherwise); the result has that shape and each pixel is the fused pair |
| `PestDetection.CountAffected` | ap.py:195-196 | the affected count lies between 0 and the pixel count; it is 0 exactly when no pixel exceeds 100 and equals the pixel count exactly when every pixel does |
| `PestDetection.CountIsCardinality` | ap.py:196 | the count equals the number of positions whose value is strictly above 100 |
| `PestDetection.PestDensity` | ap.py:195-197 | for a non-empty raster, (affected / total) · 100 lies in [0, 100]; it is 0 exactly when nothing is affected and 100 exactly when everything is |
| `PestDetection.Classify` | ap.py:201-209 | the ladder as half-open intervals: below 10 Healthy, from 10 up to 30 Moderate, 30 and above Diseased; every density gets exactly one tier |
| `PestDetection.ClassifyMonotone` | ap.py:201-209 | a larger density never gets a healthier tier |
| `PestDetection.ClassifyBoundaries` | ap.py:201-209 | 9.999 is Healthy, 10 is Moderate, 29.999 is Moderate, 30 is Diseased; the status/colour pairs are Healthy/green, Moderate/yellow, Diseased/red |
| `PestDetection.ColorIdentifiesTier` | ap.py:201-209 | distinct tiers have distinct colours, so the stored colour identifies the tier |
| `PestDetection.TierByCount` | ap.py:196-209 | with n affected pixels out of t: Healthy iff 10n < t, Moderate iff t ≤ 10n < 3t, Diseased iff 3t ≤ 10n |
| `PestDetection.Detect` | ap.py:192-209 | detection succeeds exactly when the maps have the same shape; the density is the affected share of the fused map (`PestDensity`), lies in [0, 100], density + healthy area = 100, and the tier is the ladder's tier for the density |
| `PestDetection.EdgeFreeIsHealthy` | ap.py:192-203 | where the edge map is 0 the fused value is at most 77, so an edge map without edges gives density 0, healthy 100, Healthy |
| `PestDetection.BinaryEdgesDecide` | ap.py:185-196 | with a binary (0/255) edge map, a fused pixel is affected exactly where the edge map is 255, so the affected count is the edge-pixel count |
| `PestDetection.CountAgrees` | ap.py:196 | two buffers that agree pixel by pixel on "above 100" have the same count |
| `PestStore.AnalyzePoint` | ap.py:159-221 | a run fails exactly when there is no raster or the raster is empty; a successful run gives a record under its own coordinate whose diseased share is the affected share of the fused filter maps, in [0, 100], with diseased + healthy = 100 and the ladder's colour |
| `PestStore.AnalyzeColorByCount` | ap.py:192-220 | for every non-empty raster, with n affected fused pixels out of t, the stored colour is green iff 10n < t, yellow iff t ≤ 10n < 3t, red iff 3t ≤ 10n |
| `PestStore.AnalyzeEdgeFree` | ap.py:185-221 | a non-empty raster whose edge map is empty is recorded as 0 % diseased, 100 % healthy, green |
| `PestStore.ReplayIsLatest` | ap.py:216-221 | after any series of runs, each coordinate holds the record of the latest successful run there, or its initial entry if no successful run wrote it |
| `PestStore.SameCoordinateCollides` | ap.py:216-221 | two successful runs at one coordinate, whatever their date ranges, leave only the second record and add at most that one key |
| `PestStore.PestDataStore.constructor` | ap.py:125 | the store starts empty and well-formed |
| `PestStore.PestDataStore.Put` | ap.py:216-221 | the key now maps to the record; every other key keeps its entry or its absence |
| `PestStore.PestDataStore.GenerateNdviPlot` | ap.py:159-227 | returns what AnalyzePoint gives. On success it writes exactly that record under (lat, lon) and returns the stored entry. On every failure path the store is unchanged. Every entry stays well-formed |

## Left out

- Earth Engine acquisition and the NDVI band math (ap.py:132-156): a remote query whose server-side semantics are not visible. Their outcome is the `acquired` input.
- Download and decoding through `geemap.download_file` and PIL (ap.py:160-161): network and file I/O. A failure there is `acquired = None`.
- Canny and Laplacian internals (ap.py:185-189): OpenCV calls, taken as function inputs that keep their input's shape. The `np.uint8` cast at ap.py:189 is not modelled as a clamp; its output is any byte map. Facts that depend on the filters' insides are not stated, such as "a uniform raster gives density 0".
- `FusePixel`: rounds exact ties (0.7·e + 0.3·l ending in .5) upward. OpenCV computes in single-precision float and rounds half to even, so a tie can come out one lower there. For the above-100 test this cannot matter when the edge map is binary, as Canny's is (`BinaryEdgesDecide`).
- Rendering the NDVI figure to PNG bytes (ap.py:170-181) and writing the fused image with `cv2.imwrite` (ap.py:212-213): presentation and file output. The returned image bytes and image path are not part of the modelled result. The model assumes neither step raises; in the source such a failure also returns `(None, None, None)` before the store write, so `AnalyzePoint`'s "fails exactly when there is no raster or it is empty" holds only under that assumption.
- `round(..., 2)` of the stored percentages (ap.py:218-219): float formatting. Stored values are exact. Both clauses of `WellFormed` that relate the stored numbers hold only for exact values: diseased + healthy = 100, and colour = the ladder's colour of the stored diseased share. The source picks the colour from the unrounded density (ap.py:201) but stores the rounded one (ap.py:218). For example, 3999 affected pixels of 40000 give 9.9975 (9.997499999999999 in double arithmetic), stored as 10.0 with colour "green", where the ladder gives "yellow" for 10.0; 3998 of 40000 store 9.99 and 90.0, which sum to 99.99.
- The string form of the dictionary key (ap.py:216): float formatting. The key is the pair of reals, so `-0.0` and `0.0` are one key here but two in the source.
- The `image_np is None` test (ap.py:166): `np.array` never returns None, so only the emptiness test is modelled.
- Float arithmetic in general: percentages are exact reals.
- Flask routes, HTML and D3 templates, the folium map, GeoJSON and CSV loading (ap.py:42-114, 236-876): web, UI and data-loading glue.
- Concurrent requests sharing the dictionary: the model is a single sequential store with last-write-wins.
