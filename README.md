# solar_tracking core, modelled in Dafny

This project models the three pieces of sequential logic at the heart of `solar_tracking`,
a tool that downloads solar images, finds sunspots on the first image of a series and follows
each spot through the series.

* **Spot filtering and grouping** (`find_spots_and_boxes`). The connected-component labelling
  is given as a list of labelled regions, with label 0 the background. A region is admitted
  when its area lies strictly between the bounds and its centroid is at most
  `max_distance_ratio * sun_radius` from the disk centre. The admitted centroids are grouped
  by DBSCAN with `min_samples = 1`, which is modelled as connected components of the graph
  that joins centroids at most `eps` apart. When scikit-learn cannot be imported, every spot
  forms its own group instead. Each group reports the union of its member boxes and the mean
  of its member centroids (modules `Geometry`, `Clustering`, `Sequences`, `SpotDetection`).
  `DetectionExamples` writes out the detector's two test scenes. Two disks far apart stay two
  groups at their own centres. Two overlapping disks are labelled as a single region before any
  clustering, so they form one group. A third scene shows two separate regions whose centroids
  lie within `eps` being merged by the clustering.
* **Per-spot tracking** (`run_tracking`). The tracking loop works as follows:
  - The start point is the truncated centroid.
  - The tracker is seeded with `(x-20, y-20, w+20, h+20)`.
  - The end point is the centre of the last frame's box, and it is kept only when the
    tracker succeeded on that frame.
  - Key `q` aborts the whole run and `p` pauses. The `y`/`n` gate skips every other key.
  - A run without a window never writes.
  - Each kept spot appends a row `[x1, y1, x2, y2, n-1]` to the displacement table. The
    table is read and rewritten on each append, and a missing file reads as empty.

  The MIL tracker is an input function and `waitKey` an input key stream (module `Tracking`,
  class `DisplacementTable`).
* **Trace download bookkeeping** (`download_fits`). The downloader works as follows:
  - It validates the instrument case-insensitively.
  - The new trace number is one more than the largest number parsed from the existing
    `TR_*` names, or 1. Unparsable names are skipped.
  - It creates `data/TR_XX` (zero-padded), records the archive search, and writes
    `names.txt` with one base name per line.
  - It returns what the fetch returned.

  The text helpers model `int()`, `f"{n:02d}"`, `lower`, `replace`, `basename` and reading
  lines (modules `Text`, `Downloader`, class `DataDirectory`).

The loops of the source are methods with `while`/`for` loops. Each method is proved equal to
a specification function, and the properties below are proved about those functions.

## Model

| member | source | states |
|---|---|---|
| SpotDetection.DefaultParams | solar_tracking/sunspot_detection.py:39-45 | the defaults: areas 1000..5000, ratio 0.9, clustering radius 20 (the code's value, not the 100 of the docstring at line 70) |
| SpotDetection.CandidatesExact | solar_tracking/sunspot_detection.py:93-112 | a region is a candidate iff it has a label 1..n-1 and passes both tests; area bounds are strict, so equality at either bound rejects |
| Geometry.WithinDistanceIsNorm | solar_tracking/sunspot_detection.py:103-104 | the squared comparison decides exactly `norm(centroid - centre) <= limit` for the true distance |
| SpotDetection.AdmissionByDistance | solar_tracking/sunspot_detection.py:97-105 | a region is admitted iff `min < area < max` and its true distance is `<=` the limit, the limit itself included |
| SpotDetection.CandidatesIgnoreBackground | solar_tracking/sunspot_detection.py:96 | whatever region sits at label 0 never changes the candidates |
| SpotDetection.FilterRegions | solar_tracking/sunspot_detection.py:93-112 | the filter loop yields exactly the boxes and centroids of the candidates, in label order |
| SpotDetection.DetectEmptyIffNoCandidates | solar_tracking/sunspot_detection.py:114-116 | the detector returns empty lists iff no region is admitted |
| SpotDetection.ClusterLabels | solar_tracking/sunspot_detection.py:119-126 | one label per spot, each naming a spot index (DBSCAN or the `arange` fallback) |
| Clustering.DensityLabels | solar_tracking/sunspot_detection.py:122-123 | one label per point, each label at most its point's index |
| Clustering.DensityLabelIsMember | solar_tracking/sunspot_detection.py:122-123 | a point's label is itself a point of the same cluster, carrying that same label |
| Clustering.ClosureIsComponent | solar_tracking/sunspot_detection.py:122 | the closure from point i holds exactly the points linked to i by an eps-chain |
| Clustering.DensityLabelsAreComponents | solar_tracking/sunspot_detection.py:122-123 | two spots share a DBSCAN(min_samples=1) label iff a chain of centroids, each at most eps from the next, joins them |
| Clustering.LinkedSymmetric | solar_tracking/sunspot_detection.py:122 | chain-linkage is symmetric |
| Clustering.LinkedTransitive | solar_tracking/sunspot_detection.py:122 | chain-linkage is transitive |
| SpotDetection.UniqueLabels | solar_tracking/sunspot_detection.py:128 | `np.unique`: exactly the labels that occur, strictly increasing |
| SpotDetection.Members | solar_tracking/sunspot_detection.py:134 | `np.where(labels == c)`: exactly the indices labelled c, increasing |
| SpotDetection.GroupsPartition | solar_tracking/sunspot_detection.py:128-138 | every spot lies in exactly one group and no group is empty, so no spot is discarded |
| SpotDetection.DensityGroupsAreComponents | solar_tracking/sunspot_detection.py:122-138 | a DBSCAN group holds exactly the spots chain-linked to any of its members |
| Sequences.MinOf | solar_tracking/sunspot_detection.py:141-142 | `min`: an element of the list, at most every element |
| Sequences.MaxOf | solar_tracking/sunspot_detection.py:143-144 | `max`: an element of the list, at least every element |
| SpotDetection.UnionBoxTight | solar_tracking/sunspot_detection.py:141-145 | the union box contains every member box, and each edge is attained by a member |
| SpotDetection.MeanWithinBounds | solar_tracking/sunspot_detection.py:148 | the mean centroid lies in every rectangle that holds all member centroids |
| SpotDetection.GroupSpots | solar_tracking/sunspot_detection.py:128-149 | the per-cluster loop yields one union box and one mean centroid per distinct label, in label order |
| SpotDetection.FindSpotsAndBoxes | solar_tracking/sunspot_detection.py:93-151 | the whole filter, cluster, group pipeline, including the early `([], [])` return and DBSCAN's rejection of eps <= 0 |
| SpotDetection.DetectReportsGroups | solar_tracking/sunspot_detection.py:128-151 | equal numbers of boxes and centroids, one per group; group g's box is the union box of its members' boxes (so it holds each of them, with edges at the members' extremes by `UnionBoxTight`) and its centroid is the members' mean |
| SpotDetection.FallbackKeepsSpots | solar_tracking/sunspot_detection.py:124-126 | without scikit-learn the output is exactly the filtered boxes and centroids, in order |
| SpotDetection.DefaultDetectSucceeds | solar_tracking/sunspot_detection.py:45 | with the default radius the detector never fails and returns as many centroids as boxes |
| DetectionExamples.DistantSpotsStaySeparate | tests/test_find_spots_and_boxes.py:8-50 | disks at (100,100) and (200,200) with eps 100 give exactly two groups: boxes (80,80,41,41) and (180,180,41,41), centroids (100,100) and (200,200) |
| DetectionExamples.OverlappingDisksFormOneGroup | tests/test_find_spots_and_boxes.py:54-83 | the overlapping disks at (100,100) and (110,110), labelled as one region, give exactly one group with centroid (105,105) and box (80,80,51,51) |
| DetectionExamples.NearbySpotsMerge | solar_tracking/sunspot_detection.py:118-149 | two separate disk regions at (100,100) and (130,130), within eps of each other, are merged into one group: centroid (115,115), union box (80,80,71,71) |
| Tracking.Mask | solar_tracking/tracking.py:147 | `key & 0xFF`: a byte, the key itself when it is one, congruent mod 256 |
| Tracking.NoKeyIsNoCommand | solar_tracking/tracking.py:147 | a wait without a key, `-1 & 0xFF == 255`, is none of `q`, `p`, `y`, `n` |
| Tracking.Trunc | solar_tracking/tracking.py:70-71 | Python's `int()` on a real: truncation toward zero |
| Tracking.StartPoint | solar_tracking/tracking.py:70-71 | the start point is the truncated centroid |
| Tracking.SeedBox | solar_tracking/tracking.py:75-76 | the seed box moves the corner up-left by 20 and keeps the right and bottom edges |
| Tracking.Center | solar_tracking/tracking.py:95-96 | the box centre is within one pixel of `x + w/2`, `y + h/2` and lies inside a non-inverted box |
| Tracking.FramesEnd | solar_tracking/tracking.py:79-98 | a frame loop that runs to the end has an end point iff the tracker succeeded on the last frame, and it is that box's centre |
| Tracking.FlowIgnoresTracker | solar_tracking/tracking.py:82-156 | whether a spot is cut short, and which keys it reads, do not depend on the tracker's answers, so failures never abort |
| Tracking.NonInteractiveFrames | solar_tracking/tracking.py:155-156 | a run without a window reads no key and always finishes its frames |
| Tracking.TrackFrames | solar_tracking/tracking.py:82-156 | the frame loop, including `q` and the `p` pause, computes its specification |
| Tracking.Gate | solar_tracking/tracking.py:168-175 | the gate is decided by the first `y` or `n` (true for `y`), every key before it is skipped; no decision iff no such key remains |
| Tracking.AwaitDecision | solar_tracking/tracking.py:168-175 | the `while True` key loop computes the gate |
| Tracking.SpotRowExactly | solar_tracking/tracking.py:158-185 | a spot writes a row iff the run is interactive, its frames ran without `q`, the answer was `y` and the last frame succeeded; the row is `[x1, y1, x2, y2, n-1]` |
| Tracking.TrackOneSpot | solar_tracking/tracking.py:68-185 | one pass of the spot loop computes its specification |
| Tracking.SpotsAppendTrackedRows | solar_tracking/tracking.py:179-187 | the loop only appends: earlier rows stay first and unchanged, each new row is the row of a spot whose last frame succeeded |
| Tracking.NonInteractiveWritesNothing | solar_tracking/tracking.py:155-179 | without a window every spot completes and no row is written |
| Tracking.AbortIgnoresLaterSpots | solar_tracking/tracking.py:148-151 | once `q` (or a wait on an exhausted key stream) ends the run, spots after it are never looked at |
| Tracking.TrackSpots | solar_tracking/tracking.py:68-189 | the spot loop computes its specification and the table ends as the old table plus the rows written |
| Tracking.DisplacementTable.Load | solar_tracking/tracking.py:181-184 | a missing table reads as empty |
| Tracking.DisplacementTable.Append | solar_tracking/tracking.py:180-189 | read, add the row at the end, write back: old rows unchanged, the file then exists |
| Tracking.TrackingStopsOnlyOnManifest | solar_tracking/tracking.py:35-41 | a run stops before tracking iff its names file is missing or holds fewer than two names |
| Tracking.NonInteractiveTrackingWritesNothing | solar_tracking/tracking.py:176-179 | a run with `interactive=False` never writes a row |
| Tracking.TrackingWritesTrackedRows | solar_tracking/tracking.py:179-187 | every row a run writes belongs to a detected spot whose last frame succeeded |
| Tracking.RunTracking | solar_tracking/tracking.py:10-191 | the whole run: names file, detection, spot loop and table appends |
| Tracking.LegacyFolderNameAgrees | solar_tracking/tracking.py:35 | `"TR_0" + str(t)` equals the downloader's folder name iff 0 <= t <= 9 |
| Tracking.LegacyLookupMissesTrace10 | solar_tracking/tracking.py:35-37 | the names file of trace 10, stored where the downloader puts it, is not found under the legacy name |
| Tracking.DownloadedTraceIsFound | solar_tracking/tracking.py:35-38 | the names file the downloader wrote for a trace reads back as the fetched files' base names, in order |
| Downloader.ValidInstruments | solar_tracking/downloader.py:24 | the valid names are exactly the lower-cased registry names not starting with `_` |
| Downloader.ValidationIgnoresCase | solar_tracking/downloader.py:25 | validation does not depend on the case of the argument |
| Downloader.SearchedInstrumentAsWritten | solar_tracking/downloader.py:53 | the exact-case lookup yields the argument when the registry has it, else `hmi` |
| Downloader.UpperCaseNameSearchesDefault | solar_tracking/downloader.py:24-53 | `"AIA"` passes validation yet the exact-case lookup searches `hmi` |
| Downloader.SearchedInstrument | solar_tracking/downloader.py:53 | the corrected lookup yields a public registry name equal to the argument ignoring case whenever there is one |
| Downloader.SearchedInstrumentIsValidated | solar_tracking/downloader.py:24-53 | a validated name is searched as that registry entry whatever its case |
| Downloader.UpperCaseNameSearchesItself | solar_tracking/downloader.py:24-53 | with the corrected lookup, `"AIA"` with registry names `aia`, `hmi` searches `aia` |
| Downloader.TraceGlob | solar_tracking/downloader.py:33 | the glob lists exactly the `data/` paths of entries starting with `TR_` |
| Downloader.TraceNumbers | solar_tracking/downloader.py:34-42 | the parsed numbers are exactly those of names whose `TR_`-stripped form is an integer; others are skipped |
| Downloader.CollectTraceNumbers | solar_tracking/downloader.py:34-42 | the numbering loop computes its specification |
| Downloader.NextTrace | solar_tracking/downloader.py:43-46 | greater than every parsed number; 1 when none; otherwise one more than one of them |
| Downloader.NewTraceNumberExceeds | solar_tracking/downloader.py:33-46 | the new number exceeds the number of every listed `TR_*` entry whose stripped name `int()` parses, such as `TR_5` or `TR_007` |
| Downloader.NewTraceNumberTight | solar_tracking/downloader.py:43-46 | the new number is 1 or one more than some parsed name's number |
| Downloader.NewTraceFolderIsFresh | solar_tracking/downloader.py:33-50 | the new folder never already exists |
| Downloader.NumberingAdvances | solar_tracking/downloader.py:33-49 | after folder n is added, the next download uses n + 1 |
| Downloader.ConsecutiveFoldersDiffer | solar_tracking/downloader.py:33-50 | two consecutive downloads use different folders |
| Text.BaseName | solar_tracking/downloader.py:36 | `os.path.basename`: no separator in the result, never longer than the path |
| Text.BaseNameIsLastComponent | solar_tracking/downloader.py:69 | the base name is the path's tail after its last `/`, or the whole path when it has none |
| Text.RemoveAllOnlyDeletes | solar_tracking/downloader.py:39 | `s.replace("TR_", "")` only deletes: the result's characters are a sub-multiset of the name's |
| Text.RemoveAllPrefix | solar_tracking/downloader.py:39 | an occurrence at the front is removed and the scan continues after it |
| Text.ParseIntNeedsDigit | solar_tracking/downloader.py:38-42 | `int()` fails on a text without a decimal digit, so such names are skipped |
| Text.ParseIntOfIntToString | solar_tracking/downloader.py:39 | `int(str(i)) == i` for every integer i, signs included |
| Text.IntToString | solar_tracking/tracking.py:35 | `str(i)`: non-empty, a leading minus sign exactly for negatives, decimal digits otherwise |
| Text.LowerMeaning | solar_tracking/downloader.py:24-25 | `lower()` leaves no capital, maps each capital to its small letter and keeps every other character |
| Text.LowerIdempotent | solar_tracking/downloader.py:24-25 | lower-casing twice is lower-casing once, so validating a lower-cased name agrees |
| Text.Lines | solar_tracking/tracking.py:38 | the names read from the file contain no newline |
| Text.LinesOfLine | solar_tracking/tracking.py:38 | a newline-terminated first line is read as the first name, the rest of the file gives the rest |
| Text.Format02 | solar_tracking/downloader.py:49 | `f"{n:02d}"` has at least two characters |
| Text.ParseFormat02 | solar_tracking/downloader.py:39-49 | `int(f"{n:02d}") == n` for every integer n |
| Downloader.TraceFolderNameRoundTrip | solar_tracking/downloader.py:39-49 | a folder name matches `TR_*` and parses back to its own number |
| Text.BaseNameOfJoin | solar_tracking/downloader.py:36 | the base name of `dir/name` is `name` |
| Downloader.WriteNames | solar_tracking/downloader.py:65-69 | the writing loop computes the `names.txt` text |
| Downloader.NamesTextLines | solar_tracking/downloader.py:65-69 | `names.txt` read back line by line gives one base name per fetched file, in fetch order |
| Downloader.FreshFolderIsEmpty | solar_tracking/downloader.py:49-65 | when every written file lies inside a listed entry, a folder not yet listed holds no file, so its `names.txt` is new |
| Downloader.DataDirectory.DownloadFits | solar_tracking/downloader.py:24-71 | an invalid instrument fails and changes nothing; otherwise the new trace folder, `names.txt` (overwriting no existing file) and the search are recorded, every file stays inside a listed entry, and the fetched list is returned |

## Left out

- The OpenCV preprocessing (blur, adaptive threshold, dilate, erode, connected-component labelling, sunspot_detection.py:81-90) is foreign image processing. Its output is the input list of regions.
- `sun_infos`, `image_processing_fits`, and the rotation, fitting, plotting and command-line code are FITS/header I/O, floating-point numerics or UI. They are not part of this model: the first image's regions and the disk radius and centre are inputs, and only the number of images matters.
- Floating point: centroids, distances and means are exact `real`s, and distances are compared on squares. np.linalg.norm's rounding is not modelled. Because the squared comparison is exact for any sign of the limit, no bound on the ratio or the radius is required.
- DBSCAN internals: only the `min_samples = 1` partition is modelled. A label is the smallest spot index of its component, so groups come out ordered by their lowest member, as scikit-learn numbers them. A radius eps <= 0, which DBSCAN's parameter check rejects, is the error `NonPositiveEps`.
- The MIL tracker is an input function of spot index, seed box and frame. Its dependence on the images is not modelled.
- Drawing, the zoom ROI with its try/except, windows, `imshow`, `print` and `destroyWindow` (tracking.py:85-146, 149-150, 191) are UI.
- `waitKey` is the key stream:
  - A timed wait past the end of the stream sees no key (-1, masked to 255).
  - A blocking wait past the end (after `p`, or at the gate) would wait forever, and the run ends as `Stalled`.
  - A run without a window reads no keys.
  - The key that ends a pause is consumed and ignored, so `q` there does not abort, as in the code.
- The names file: `genfromtxt` is modelled as splitting on newlines. Its comment, blank-line and whitespace-splitting rules are left out.
  - A file with no name or a single name raises IndexError at tracking.py:41: `genfromtxt` returns an empty or zero-dimensional array, and `file_paths[0]` fails on both. The model reports this as `ManifestIndexError`.
  - Hence the ValueError at tracking.py:51-52 cannot be reached, and neither can the undefined `current_disp` of a one-image interactive run. Neither has an outcome of its own.
- The displacement table is an object handed to the run. Its path, `data/TR_0{trace}/data_points.csv`, is not modelled. `savetxt`'s header and `%.8f` formatting are left out, and rows hold integers.
- Filesystem and network: the `data` directory is an in-memory listing plus a map of text files written, and `os.path.join(os.getcwd(), "data")` is the fixed directory `data`. `Fido.search` is recorded as a `Query` and `Fido.fetch` supplies the returned paths. The fetched FITS files are not recorded as entries, and the unit multiplication of `sample_seperation` is not modelled.
- The ValueError's message text is not modelled: the error carries the rejected instrument.
- `int()` and `str.strip()` remove the ASCII whitespace that `str.isspace()` accepts: tab to carriage return, the separators 0x1C to 0x1F, and space. Non-ASCII whitespace such as 0x85 and 0xA0, non-ASCII digits and non-ASCII case mapping in `lower()` are left out.
- The registry listing of `a.Instrument` is an input. The model assumes `getattr` succeeds exactly for the names it lists.
- The seed box at tracking.py:75-76 shifts the corner by 20 up and left while adding only 20 to the width and height. Its right and bottom edges therefore stay where the spot's box had them, and `Tracking.SeedBox` states exactly this.

## Findings

| source | as written | input that shows it | evidently intended | confidence | as-written member | corrected member |
|---|---|---|---|---|---|---|
| solar_tracking/tracking.py:35 | the trace folder is `"TR_0" + str(trace)` | trace 10: the downloader creates `TR_10`, the tracker opens `TR_010` and raises FileNotFoundError | the downloader's name `f"TR_{trace:02d}"` (downloader.py:49) | medium, not executed | Tracking.LegacyLookupMissesTrace10 | Tracking.DownloadedTraceIsFound |
| solar_tracking/downloader.py:53 | `getattr(a.Instrument, instrument, a.Instrument.hmi)` looks the name up in its given case after a case-insensitive check | `"AIA"` with registry names `aia`, `hmi` passes validation but searches `hmi` | search the instrument the check accepted | medium, not executed | Downloader.UpperCaseNameSearchesDefault | Downloader.SearchedInstrumentIsValidated |

The tracking model looks names up with the downloader's folder name (`Tracking.Manifest`), and the download records the corrected lookup (`Downloader.SearchedInstrument`). `Tracking.LegacyFolderNameAgrees` shows that both names agree exactly for traces 0 to 9.
