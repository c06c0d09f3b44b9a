# Muon monitor simulator — a verified Dafny model

This project models the deterministic core of the muon-monitor simulator
(`ru.mipt.npm.muon.sim`). The simulator sends straight muon tracks through a
monitor made of scintillator detectors. Each detector is a 4×4 grid of
pixels, and detectors sit on three layers. The simulator then works with the
pattern of hit pixels:

- **Hit-pattern identity.** A track resolves to the set of pixels it hits
  (`defaultHitResolver`, `Pixel.isHit`, `Layer.intersect`). The set becomes a
  canonical identity string: the sorted pixel names, joined by ", " and
  bracketed (`Event.getIdentity`).
- **Aggregation.** Events are counted per identity in `Counter`s
  (`simulateN`). Experimental frequency files are parsed into identity→count
  maps (`readData`) and matched against the simulation (`evalData`).
- **Sky map.** The events of each identity are binned into a weighted 1°×1°
  histogram of directions (`generateMap`).
- **Detector geometry.** The nine layer heights and `findLayer`. The fixed
  pixel layout and the quarter-turn rotation (`buildDetector`,
  `rotateDetector`). The geometry-file and efficiency-file readers
  (`buildPixels`, `readEffs`).
- **Track generators as functions of their random draws.** The uniform,
  fixed-angle, empirical and cos² accept-reject generators, each taking
  explicit draws in [0, 1).
- **Efficiency scan.** The per-direction efficiency, the direction grid and
  the text progress bar (`simulateSingleDirection`, `generateEfficiency`,
  `updateProgress`).
- **Spherical-harmonics bookkeeping.** The function counts, the (l, m)
  layout of the coefficient array, the integer product in `getFactor` and the
  Legendre recurrence of `plgndrTest`.
- **Viewer highlight field.** `findPixelByName` and the parsing of the
  highlight text in the Enter handler. The main property here is that an
  identity string pasted into the field selects exactly its pixels.

Geometry is exact linear algebra over `real`. The intersection of a plane and
a line follows the commons-math test for a parallel line, written without a
square root. Trigonometry, square roots and `toDouble()` are parameters.
Kotlin's integer `/` and `%` (truncating toward zero) and `Double.toInt()`
(truncating and saturating at the `Int` range) are written out. `String.toInt()`
is modelled for ASCII digits only, and `Int` counters and sums are unbounded
integers; "## Left out" says where that matters. Every place where the source
throws becomes an `Option` or a `Result`.

Modules, one per source file, plus shared helpers:

- `Wrappers`, `SeqUtil` and `Text` hold `Option`/`Result`, sequence and set
  helpers, and the Kotlin string operations the core uses (`sorted`, `split`,
  `trim`, `toInt`, `joinToString`).
- `Geometry` holds vectors, lines and plane intersection.
- `MonitorConstants` and `MonitorLayers` hold the constants, `layers` and
  `findLayer`.
- `Layers`, `Pixels`, `Tracks`, `Events`, `ExperimentData`, `Simulation`,
  `SkyMap`, `Efficiency`, `SphericalHarmonics`, `Monitor` and `MonitorView`
  each model the source file of the same name.

Source paths below are relative to the repository root.

## Model

| member | source | states |
|---|---|---|
| Geometry.LineThrough | src/main/kotlin/ru/mipt/npm/muon/sim/Track.kt:43 | A line through two points exists exactly when they differ. It starts at the first point and reaches the second. |
| Geometry.Parallel | src/main/kotlin/ru/mipt/npm/muon/sim/Layer.kt:14-15 | A direction counts as parallel to a z-plane when its z part is zero or negligible against its length, the case where the plane intersection finds no point; IntersectZ fails exactly on it. |
| Geometry.IntersectZ | src/main/kotlin/ru/mipt/npm/muon/sim/Layer.kt:12-15 | A z-plane meets a line exactly when the line is not parallel to it. The point found has the plane's z and lies on the line. |
| Layers.Intersect | src/main/kotlin/ru/mipt/npm/muon/sim/Layer.kt:11-16 | The crossing point has the layer's z and lies on the track's line. It is absent exactly for a track parallel to the layers, where Kotlin throws on the null result. |
| Layers.HorizontalMissesLayer | src/main/kotlin/ru/mipt/npm/muon/sim/Layer.kt:12-15 | A track with no vertical component never meets a layer. |
| Layers.IntersectIgnoresName | src/main/kotlin/ru/mipt/npm/muon/sim/Layer.kt:11-15 | Only the layer's height matters, never its name. |
| MonitorLayers.LayerHeights | src/main/kotlin/ru/mipt/npm/muon/sim/Monitor.kt:27-37 | The layer heights are exactly 0, 166 and -180, each also shifted by ±15 (half the pixel thickness). |
| MonitorLayers.LayerHeightsDistinct | src/main/kotlin/ru/mipt/npm/muon/sim/Monitor.kt:27-37 | No two layers share a height. |
| MonitorLayers.FindLayer | src/main/kotlin/ru/mipt/npm/muon/sim/Monitor.kt:41-48 | Returns the first layer whose height equals z exactly. Fails exactly when z is not a layer height. |
| Pixels.Pixel.constructor | src/main/kotlin/ru/mipt/npm/muon/sim/Pixel.kt:10-14 | Keeps the name, centre and sizes. The centre layer is at the centre's height, and the up and bottom planes are half a thickness above and below it. |
| Pixels.NewPixel | src/main/kotlin/ru/mipt/npm/muon/sim/Pixel.kt:10-14 | Construction fails exactly when the centre's z is not a layer height. Otherwise it gives a fresh valid pixel with the given fields on one of the nine layers. |
| Pixels.NewDefaultPixel | src/main/kotlin/ru/mipt/npm/muon/sim/Pixel.kt:10-12 | The same, with the default sizes 122 × 122 × 30. The new pixel has the default efficiency 1. |
| Pixels.Pixel.IsHit | src/main/kotlin/ru/mipt/npm/muon/sim/Pixel.kt:34-37 | A hit means that the track's crossing of the centre, up or bottom plane lies in the box. The result is undefined (the source throws) exactly for a track parallel to the layers. No efficiency is consulted. |
| Pixels.Pixel.ContainsPoint | src/main/kotlin/ru/mipt/npm/muon/sim/Pixel.kt:17-21 | A point lies in the box when each coordinate is within half the box's size of the centre, bounds included; ContainsCenter and IsHitFootprint rest on it. |
| Pixels.Pixel.ContainsCenter | src/main/kotlin/ru/mipt/npm/muon/sim/Pixel.kt:17-21 | A box of non-negative size contains its own centre, since the bounds are inclusive. |
| Pixels.Pixel.IsHitFootprint | src/main/kotlin/ru/mipt/npm/muon/sim/Pixel.kt:17-37 | For a box of non-negative thickness, a hit is exactly a crossing of one of the three planes inside the xy footprint. |
| Pixels.Pixel.VerticalTrackHits | src/main/kotlin/ru/mipt/npm/muon/sim/Pixel.kt:17-37 | A vertical track through the footprint hits the pixel. |
| Tracks.MakeTrack | src/main/kotlin/ru/mipt/npm/muon/sim/Track.kt:42-44 | The track's line starts at `start` and passes through `start + direction`. It fails exactly for a zero direction. |
| Tracks.MakeTrackAt | src/main/kotlin/ru/mipt/npm/muon/sim/Track.kt:46-49 | The track is anchored at (x, y, CENTRAL_LAYER_Z) and runs along the direction given by the angles. |
| Tracks.Theta | src/main/kotlin/ru/mipt/npm/muon/sim/Track.kt:19-21 | The zenith-side angle of a track is the delta angle of its direction. |
| Tracks.Phi | src/main/kotlin/ru/mipt/npm/muon/sim/Track.kt:26-28 | The azimuth of a track is the alpha angle of its direction. |
| Tracks.BasePoint | src/main/kotlin/ru/mipt/npm/muon/sim/Track.kt:33-39 | The base point lies on the line in the z = 0 plane. It is absent exactly for a line parallel to that plane. |
| Tracks.GetX | src/main/kotlin/ru/mipt/npm/muon/sim/Track.kt:33-35 | x of the base point, and nothing for a track parallel to the base plane. |
| Tracks.GetY | src/main/kotlin/ru/mipt/npm/muon/sim/Track.kt:37-39 | y of the base point, and nothing for a track parallel to the base plane. |
| Tracks.MakeTrackAtRoundTrip | src/main/kotlin/ru/mipt/npm/muon/sim/Track.kt:33-49 | For a non-horizontal track, getX and getY give back the x and y it was made with. |
| Tracks.Symmetric | src/main/kotlin/ru/mipt/npm/muon/sim/Track.kt:60-61 | For a draw u in [0, 1), `(1 - 2u) * max` lies in (-max, max]. |
| Tracks.Doubled | src/main/kotlin/ru/mipt/npm/muon/sim/Track.kt:62 | For a draw u in [0, 1), `2u * c` lies in [0, 2c). |
| Tracks.UniformParams | src/main/kotlin/ru/mipt/npm/muon/sim/Track.kt:58-64 | The four draws, in order, give x, y, phi and theta; UniformBounds states their ranges. |
| Tracks.UniformGenerate | src/main/kotlin/ru/mipt/npm/muon/sim/Track.kt:58-65 | The generated track is the track made from UniformParams. |
| Tracks.UniformBounds | src/main/kotlin/ru/mipt/npm/muon/sim/Track.kt:58-65 | This file's uniform generator gives x in (-maxX, maxX], y in (-maxY, maxY] and phi in [0, 2π). |
| Events.IdentityOf | src/main/kotlin/ru/mipt/npm/muon/sim/Event.kt:16-17 | The names, sorted, joined by ", " inside brackets; IdentityPermutation, IdentityEmpty and IdentityOfInjective state its meaning. |
| Events.Identity | src/main/kotlin/ru/mipt/npm/muon/sim/Event.kt:15-18 | An event's identity is IdentityOf of its hits' names. |
| Events.IdentityPermutation | src/main/kotlin/ru/mipt/npm/muon/sim/Event.kt:15-18 | The identity does not depend on the order in which the hits are listed. |
| Events.IdentityEmpty | src/main/kotlin/ru/mipt/npm/muon/sim/Event.kt:15-18 | An event without hits has identity "[]". |
| Events.IdentityOfInjective | src/main/kotlin/ru/mipt/npm/muon/sim/Event.kt:15-18 | For non-empty names without ',', two name collections have equal identities if and only if they hold the same names, each as often. |
| Events.IdentityInjective | src/main/kotlin/ru/mipt/npm/muon/sim/Event.kt:15-18 | The same, for two events and their hit names. |
| Events.BuildEventByTrack | src/main/kotlin/ru/mipt/npm/muon/sim/Event.kt:22-24 | The event keeps the track unchanged and carries exactly what the resolver returns. It fails exactly when the resolver throws. |
| Events.DefaultHitResolver | src/main/kotlin/ru/mipt/npm/muon/sim/Event.kt:26-34 | The hits are exactly the pixels of the map that the track hits, each once. It fails exactly for a track parallel to the layers over a non-empty map. |
| Events.BuildEventDefault | src/main/kotlin/ru/mipt/npm/muon/sim/Event.kt:22-34 | With the default resolver, the event's hits are exactly the hit pixels. |
| Events.BuildHitMap | src/main/kotlin/ru/mipt/npm/muon/sim/Event.kt:40-44 | hitMap has exactly the detectors of the hits as keys. Each key maps to exactly the pixel numbers hit in that detector. The keys are listed without repetition. |
| Events.RawLine | src/main/kotlin/ru/mipt/npm/muon/sim/Event.kt:47-55 | A detector line is "1 d -1 -1 -1 " and then 16 marks. Mark i is '1' exactly when some hit of detector d has pixel number i. |
| Events.PrintEventAsRaw | src/main/kotlin/ru/mipt/npm/muon/sim/Event.kt:39-57 | Prints the header, then exactly one line per distinct detector among the hits, each a well-formed detector line for its detector. |
| ExperimentData.AddName | src/main/kotlin/ru/mipt/npm/muon/sim/ExperimentData.kt:31 | Adding a name to the set keeps it free of duplicates, and the result holds the old names and the new one. |
| ExperimentData.NamesOf | src/main/kotlin/ru/mipt/npm/muon/sim/ExperimentData.kt:30-31 | The name set of a block is exactly "SC" + first field of each body line, without duplicates. |
| ExperimentData.Step | src/main/kotlin/ru/mipt/npm/muon/sim/ExperimentData.kt:23-33 | One line: after a block end it reads the count (error on a bad count line), a '#' line stores the block under its sorted-name key, any other line adds "SC" + its first field. |
| ExperimentData.Run | src/main/kotlin/ru/mipt/npm/muon/sim/ExperimentData.kt:22-34 | The line loop as a left fold of Step that stops at the first error; RunAppend and RunErrStays state this. |
| ExperimentData.ReadData | src/main/kotlin/ru/mipt/npm/muon/sim/ExperimentData.kt:13-36 | The line-by-line loop returns the result of the line fold, and fails exactly where a count line does not parse. |
| ExperimentData.RunErrStays | src/main/kotlin/ru/mipt/npm/muon/sim/ExperimentData.kt:22-35 | Once a prefix of the file fails, the whole read fails. |
| ExperimentData.RunBody | src/main/kotlin/ru/mipt/npm/muon/sim/ExperimentData.kt:30-31 | Body lines only collect names. The count and the result are untouched. |
| ExperimentData.Block | src/main/kotlin/ru/mipt/npm/muon/sim/ExperimentData.kt:23-29 | A count line, body lines and a "#" line store the block's identity with the block's count. A repeated identity is overwritten (put, not add), and the reader then expects a new count line. |
| ExperimentData.Unterminated | src/main/kotlin/ru/mipt/npm/muon/sim/ExperimentData.kt:22-35 | A last block without its "#" line leaves the result unchanged. |
| ExperimentData.BlockKeyIsIdentity | src/main/kotlin/ru/mipt/npm/muon/sim/ExperimentData.kt:27 | A block's key equals getIdentity of any event whose hit names are exactly the block's names. |
| ExperimentData.Used | src/main/kotlin/ru/mipt/npm/muon/sim/ExperimentData.kt:67-78 | The identities evalData counts are exactly those in both maps that pass the multiplicity filter (negative: no filter). |
| ExperimentData.EvalData | src/main/kotlin/ru/mipt/npm/muon/sim/ExperimentData.kt:64-78 | simCount and dataCount are the sums of the simulated counts and of the data counts over the used identities. |
| ExperimentData.UsedSimulated | src/main/kotlin/ru/mipt/npm/muon/sim/ExperimentData.kt:67-78 | Against n simulated events, simCount is at most n. It is exactly n with no filter when every simulated identity is in the data. |
| Simulation.Counter.constructor | src/main/kotlin/ru/mipt/npm/muon/sim/Simulation.kt:50-53 | A new counter has count 0 and a zero sum. |
| Simulation.Counter.PutEvent | src/main/kotlin/ru/mipt/npm/muon/sim/Simulation.kt:59-62 | count grows by exactly one and the direction is added to sum. id and multiplicity are constants. |
| Simulation.Counter.Average | src/main/kotlin/ru/mipt/npm/muon/sim/Simulation.kt:64-66 | count copies of the average add up to the sum. It is undefined (NaN) exactly when count is 0. |
| Simulation.TallyOf | src/main/kotlin/ru/mipt/npm/muon/sim/Simulation.kt:32-43 | The expected counters after a run have one entry per key that occurs. |
| Simulation.TallySnoc | src/main/kotlin/ru/mipt/npm/muon/sim/Simulation.kt:35-41 | Processing one more event changes the expected counters by one registry update for its key. |
| Simulation.PutInto | src/main/kotlin/ru/mipt/npm/muon/sim/Simulation.kt:36-40 | One loop step records the event in the counter of its key, creating the counter when absent. Counters stay distinct objects. |
| Simulation.SimulateN | src/main/kotlin/ru/mipt/npm/muon/sim/Simulation.kt:32-43 | The counters hold exactly the expected tallies: one distinct fresh counter per key. Its multiplicity is the hit count of the key's first event, its count the number of events with that key, and its sum the sum of their directions. |
| Simulation.CountKeyPositive | src/main/kotlin/ru/mipt/npm/muon/sim/Simulation.kt:37-40 | Every stored counter has count at least 1. |
| Simulation.CountKeyAbsent | src/main/kotlin/ru/mipt/npm/muon/sim/Simulation.kt:37-40 | A key that does not occur has no events and a zero sum. |
| Simulation.CountsSumToTotal | src/main/kotlin/ru/mipt/npm/muon/sim/Simulation.kt:32-43 | Each event is counted under exactly one key: the counts add up to n. |
| Simulation.SimUniformParams | src/main/kotlin/ru/mipt/npm/muon/sim/Simulation.kt:128-134 | The four draws give x, y, phi = (1 - 2u)π and theta = π/2 - acos(u); SimUniformBounds states their ranges. |
| Simulation.SimUniformBounds | src/main/kotlin/ru/mipt/npm/muon/sim/Simulation.kt:127-134 | This file's uniform generator gives x in (-maxX, maxX], y in (-maxY, maxY] and phi in (-π, π]. |
| Simulation.FixedAngleParams | src/main/kotlin/ru/mipt/npm/muon/sim/Simulation.kt:184-188 | Two draws give x and y; the angles are the generator's own; FixedAngleBounds states the ranges. |
| Simulation.FixedAngleBounds | src/main/kotlin/ru/mipt/npm/muon/sim/Simulation.kt:181-188 | x and y lie in the same ranges, and the angles are exactly the fixed ones. |
| Simulation.EmpiricalParams | src/main/kotlin/ru/mipt/npm/muon/sim/Simulation.kt:163-177 | A row's angles in radians, theta from 90 - row.theta, each plus a jitter of up to half an angle step. |
| Simulation.EmpiricalRowParams | src/main/kotlin/ru/mipt/npm/muon/sim/Simulation.kt:167-177 | EmpiricalParams of the sampled row; EmpiricalJitter states the bounds. |
| Simulation.EmpiricalJitter | src/main/kotlin/ru/mipt/npm/muon/sim/Simulation.kt:162-178 | x and y lie in the same ranges. theta and phi are within half an angle step of the row's direction. |
| Simulation.Cos2Generate | src/main/kotlin/ru/mipt/npm/muon/sim/Simulation.kt:194-210 | Returns the track of the first accepted candidate among 501 rounds. It throws the sampling failure exactly when all 501 are rejected. |
| Simulation.SortByCountDesc | src/main/kotlin/ru/mipt/npm/muon/sim/Simulation.kt:262 | The sort keeps every row, each as often. |
| Simulation.InsertWithCount | src/main/kotlin/ru/mipt/npm/muon/sim/Simulation.kt:262 | Inserting a row puts it in front of the rows with its count and leaves the order of every count's rows otherwise unchanged. |
| Simulation.SortByCountDescStable | src/main/kotlin/ru/mipt/npm/muon/sim/Simulation.kt:262 | `sortedByDescending` is stable: rows with an equal count come out in their input order. |
| Simulation.SortByCountDescSorted | src/main/kotlin/ru/mipt/npm/muon/sim/Simulation.kt:262 | The sorted rows have non-increasing counts. |
| Simulation.FilterKeepCounts | src/main/kotlin/ru/mipt/npm/muon/sim/Simulation.kt:263 | The filter keeps exactly the rows that pass the multiplicity test, each as often as before. |
| Simulation.FilterKeepSorted | src/main/kotlin/ru/mipt/npm/muon/sim/Simulation.kt:262-263 | Filtering keeps the order by count. |
| Simulation.Table | src/main/kotlin/ru/mipt/npm/muon/sim/Simulation.kt:262-263 | The counters sorted by count, descending, keeping those of the asked multiplicity (all of them when it is negative); TableProperties states this. |
| Simulation.TableProperties | src/main/kotlin/ru/mipt/npm/muon/sim/Simulation.kt:262-263 | The table lists, by non-increasing count, exactly the counters with multiplicity filter passed, each once per occurrence. |
| SkyMap.Convert | src/main/kotlin/ru/mipt/npm/muon/sim/SkyMap.kt:68 | An angle maps to the centre (floor + 0.5) of its 1-degree bin. |
| SkyMap.Bin | src/main/kotlin/ru/mipt/npm/muon/sim/SkyMap.kt:78 | The cell of a track is the pair of converted theta and phi. |
| SkyMap.ConvertSameBin | src/main/kotlin/ru/mipt/npm/muon/sim/SkyMap.kt:68 | Two angles share a bin exactly when their degree values have the same floor. |
| SkyMap.Factor | src/main/kotlin/ru/mipt/npm/muon/sim/SkyMap.kt:75 | The factor is 1 without data. With data it is the data count of the identity, or 0 when the identity is absent. |
| SkyMap.ZeroFactorAddsNothing | src/main/kotlin/ru/mipt/npm/muon/sim/SkyMap.kt:75-76 | An identity whose factor is not positive adds nothing to any cell. |
| SkyMap.AddToCell | src/main/kotlin/ru/mipt/npm/muon/sim/SkyMap.kt:79-82 | Adding f to one cell adds f to the total. |
| SkyMap.AddEvents | src/main/kotlin/ru/mipt/npm/muon/sim/SkyMap.kt:77-83 | Each event of an identity adds exactly the factor to its cell. Cells stay positive, and the total grows by factor × number of events. |
| SkyMap.GenerateCells | src/main/kotlin/ru/mipt/npm/muon/sim/SkyMap.kt:70-85 | Every cell holds the summed factor of the events in it and is positive. The cells add up to Σ factor × events over all identities. |
| SkyMap.Entries | src/main/kotlin/ru/mipt/npm/muon/sim/SkyMap.kt:86 | There is one entry per populated cell, each built from its cell and value. |
| SkyMap.GenerateMap | src/main/kotlin/ru/mipt/npm/muon/sim/SkyMap.kt:67-87 | Populated cells are exactly those of positive weight, each with its weight. The total is preserved, and there is one entry per populated cell. |
| SkyMap.LoadMap | src/main/kotlin/ru/mipt/npm/muon/sim/SkyMap.kt:22-31 | Every line not starting with "#" becomes one entry from its first three fields. The read fails exactly when such a line does not parse. |
| SkyMap.SkyEmpiricalParams | src/main/kotlin/ru/mipt/npm/muon/sim/SkyMap.kt:48-63 | The sampled row's angles in radians, theta from 90 - row.theta, each plus a jitter; SkyEmpiricalJitter states the bounds. |
| SkyMap.SkyEmpiricalJitter | src/main/kotlin/ru/mipt/npm/muon/sim/SkyMap.kt:48-64 | The drawn theta is within half an angle step of 90 - row.theta (in radians), and phi within half a step of row.phi. |
| Efficiency.SumSelected | src/main/kotlin/ru/mipt/npm/muon/sim/Efficiency.kt:10-12 | The loop sums the counts of exactly the counters that pass the predicate. |
| Efficiency.DirectionEfficiency | src/main/kotlin/ru/mipt/npm/muon/sim/Efficiency.kt:8-14 | The selected count over the number of events, nothing when there are no events; EfficiencyBounds states it is in [0, 1]. |
| Efficiency.SimulateSingleDirection | src/main/kotlin/ru/mipt/npm/muon/sim/Efficiency.kt:8-14 | The result is the selected count divided by the number of events. |
| Efficiency.SelectedCountBounds | src/main/kotlin/ru/mipt/npm/muon/sim/Efficiency.kt:10-12 | The selected count is at most the number of events, and equals it with the all-true predicate. |
| Efficiency.EfficiencyBounds | src/main/kotlin/ru/mipt/npm/muon/sim/Efficiency.kt:8-14 | The efficiency lies in [0, 1], and is exactly 1 with the default predicate. |
| Efficiency.DoubleToInt | src/main/kotlin/ru/mipt/npm/muon/sim/Efficiency.kt:21 | Double.toInt rounds toward zero and saturates at the Int range. |
| Efficiency.UpdateProgress | src/main/kotlin/ru/mipt/npm/muon/sim/Efficiency.kt:16-30 | The two loops print exactly the bar of the fraction. |
| Efficiency.ProgressBar | src/main/kotlin/ru/mipt/npm/muon/sim/Efficiency.kt:16-30 | A carriage return, then a 50-wide bar in brackets of '=' for the done part and spaces for the rest; ProgressBarPartial and ProgressBarComplete state it. |
| Efficiency.ProgressBarPartial | src/main/kotlin/ru/mipt/npm/muon/sim/Efficiency.kt:16-30 | For p in [0, 1), the bar holds floor(50p) + 1 '=' and is padded with spaces to exactly 50 characters. |
| Efficiency.ProgressBarComplete | src/main/kotlin/ru/mipt/npm/muon/sim/Efficiency.kt:16-30 | At p = 1 the bar holds 51 '=' and no space. |
| Efficiency.FilledMonotone | src/main/kotlin/ru/mipt/npm/muon/sim/Efficiency.kt:21 | The bar never shrinks as the fraction grows. |
| Efficiency.GridRows | src/main/kotlin/ru/mipt/npm/muon/sim/Efficiency.kt:36-40 | There are 9 × 37 output lines. |
| Efficiency.GridPointOf | src/main/kotlin/ru/mipt/npm/muon/sim/Efficiency.kt:36-37 | Line 37a + b is the grid point (10a, 10b). |
| Efficiency.GridCovers | src/main/kotlin/ru/mipt/npm/muon/sim/Efficiency.kt:36-37 | Every theta in {0, …, 80} and phi in {0, …, 360} (both ends) is visited. |
| Efficiency.GridRowAt | src/main/kotlin/ru/mipt/npm/muon/sim/Efficiency.kt:36-39 | Each line is the efficiency at (π/180·(90 − theta), π/180·(phi − 180)) over events of multiplicity ≥ 3. |
| Efficiency.ProgressBounded | src/main/kotlin/ru/mipt/npm/muon/sim/Efficiency.kt:41 | The progress fractions lie in (0, 1], so the bar is always defined. |
| Efficiency.ScanTheta | src/main/kotlin/ru/mipt/npm/muon/sim/Efficiency.kt:37-40 | The inner loop prints exactly the 37 grid lines of one theta. |
| Efficiency.GenerateEfficiency | src/main/kotlin/ru/mipt/npm/muon/sim/Efficiency.kt:32-43 | The nested loops print exactly the grid lines in order. A bar at 0 comes first, then one bar after each theta. |
| SphericalHarmonics.KotlinDiv | src/main/kotlin/ru/mipt/npm/muon/sim/SphericalHarmonics.kt:147 | Int `/` rounds toward zero. |
| SphericalHarmonics.KotlinRem | src/main/kotlin/ru/mipt/npm/muon/sim/SphericalHarmonics.kt:143 | Int `%` takes the sign of the dividend, and together with KotlinDiv gives the division identity. |
| SphericalHarmonics.FuncsUpTo | src/main/kotlin/ru/mipt/npm/muon/sim/SphericalHarmonics.kt:129-131 | (order + 1)²; FuncsUpToCounts and FuncsUpToInIntRange state its meaning and range. |
| SphericalHarmonics.FuncsUpToCounts | src/main/kotlin/ru/mipt/npm/muon/sim/SphericalHarmonics.kt:129-131 | (order + 1)² counts every pair (l, m) with l ≤ order and -l ≤ m ≤ l. |
| SphericalHarmonics.EvenFuncsUpTo | src/main/kotlin/ru/mipt/npm/muon/sim/SphericalHarmonics.kt:139-148 | A positive odd order is first lowered by one (Kotlin `%`), then (order + 1)(order / 2 + 1) with Kotlin division; EvenFuncsUpToCounts and EvenFuncsUpToInIntRange state its meaning and range. |
| SphericalHarmonics.EvenFuncsUpToCounts | src/main/kotlin/ru/mipt/npm/muon/sim/SphericalHarmonics.kt:139-148 | An odd order counts as the even order below it. Order 2k counts the pairs 0 ≤ m ≤ l ≤ 2k. |
| SphericalHarmonics.FuncsUpToInIntRange | src/main/kotlin/ru/mipt/npm/muon/sim/SphericalHarmonics.kt:129-131 | For order ≥ −1, the product fits in a Kotlin `Int` exactly when the order is below 46340. |
| SphericalHarmonics.EvenFuncsUpToInIntRange | src/main/kotlin/ru/mipt/npm/muon/sim/SphericalHarmonics.kt:139-148 | For a non-negative order, the product fits in a Kotlin `Int` exactly when the order is below 65536. |
| SphericalHarmonics.LabelIndex | src/main/kotlin/ru/mipt/npm/muon/sim/SphericalHarmonics.kt:216-221 | Every label has 0 ≤ m ≤ l. Coefficient k comes right after all pairs of lower l. |
| SphericalHarmonics.LabelOf | src/main/kotlin/ru/mipt/npm/muon/sim/SphericalHarmonics.kt:216-221 | Each pair (l, m) labels exactly one coefficient index. |
| SphericalHarmonics.LabelBelow | src/main/kotlin/ru/mipt/npm/muon/sim/SphericalHarmonics.kt:216-221 | The indices before Tri(L + 1) carry l ≤ L. |
| SphericalHarmonics.LabelWithin | src/main/kotlin/ru/mipt/npm/muon/sim/SphericalHarmonics.kt:216-221 | Every pair with l ≤ L comes before index Tri(L + 1). |
| SphericalHarmonics.LayoutBelow | src/main/kotlin/ru/mipt/npm/muon/sim/SphericalHarmonics.kt:250-253 | For even L, the coefficients that fit builds carry only orders l ≤ L. |
| SphericalHarmonics.LayoutLast | src/main/kotlin/ru/mipt/npm/muon/sim/SphericalHarmonics.kt:250-253 | For even L, the last of those coefficients is (L, L). |
| SphericalHarmonics.ArrayToCoefs | src/main/kotlin/ru/mipt/npm/muon/sim/SphericalHarmonics.kt:202-225 | An odd-sized array is rejected with the source's message. Otherwise coefficient k is (arr[2k], arr[2k+1]) with the k-th label. |
| SphericalHarmonics.FactorProduct | src/main/kotlin/ru/mipt/npm/muon/sim/SphericalHarmonics.kt:36-39 | The loop multiplies l-m+1 … l+m, which for 0 ≤ m ≤ l is (l+m)!/(l-m)! and positive. |
| SphericalHarmonics.LegendreNextTimes | src/main/kotlin/ru/mipt/npm/muon/sim/SphericalHarmonics.kt:114 | One step satisfies (ll-m)·P_ll = x(2ll-1)·P_{ll-1} - (ll+m-1)·P_{ll-2}. |
| SphericalHarmonics.LegendreLow | src/main/kotlin/ru/mipt/npm/muon/sim/SphericalHarmonics.kt:96-110 | The starting values are P_m^m and x(2m+1)P_m^m. |
| SphericalHarmonics.LegendreUnfold | src/main/kotlin/ru/mipt/npm/muon/sim/SphericalHarmonics.kt:112-118 | From ll = m + 2 on, each value is one recurrence step from the two below it. |
| SphericalHarmonics.EndStep | src/main/kotlin/ru/mipt/npm/muon/sim/SphericalHarmonics.kt:114 | At x = ±1 with m = 0, the recurrence keeps the pattern P_l = x^l. |
| SphericalHarmonics.LegendreAtOne | src/main/kotlin/ru/mipt/npm/muon/sim/SphericalHarmonics.kt:92-121 | P_l(1) = 1 for every l. |
| SphericalHarmonics.LegendreAtMinusOne | src/main/kotlin/ru/mipt/npm/muon/sim/SphericalHarmonics.kt:92-121 | P_l(-1) = (-1)^l for every l. |
| SphericalHarmonics.PlgndrTest | src/main/kotlin/ru/mipt/npm/muon/sim/SphericalHarmonics.kt:92-121 | Rejects exactly m < 0, m > l and \|x\| > 1. Otherwise the loops compute P_l^m(x) as defined by the recurrence. |
| Monitor.Rotate | src/main/kotlin/ru/mipt/npm/muon/sim/Monitor.kt:186-188 | A quarter turn keeps z. |
| Monitor.RotateKeepsLength | src/main/kotlin/ru/mipt/npm/muon/sim/Monitor.kt:186-188 | A quarter turn keeps the squared length. |
| Monitor.RotateFourTimes | src/main/kotlin/ru/mipt/npm/muon/sim/Monitor.kt:186-188 | Four quarter turns are the identity. |
| Monitor.RotateFixesOnlyAxis | src/main/kotlin/ru/mipt/npm/muon/sim/Monitor.kt:186-188 | A vector is fixed by the turn exactly when it lies on the z axis. |
| Monitor.OffsetUnits | src/main/kotlin/ru/mipt/npm/muon/sim/Monitor.kt:105-174 | The offset table is defined exactly for the indices 0..15. The `else` branch throws. |
| Monitor.OffsetOnGrid | src/main/kotlin/ru/mipt/npm/muon/sim/Monitor.kt:105-174 | Every offset has x, y in {±0.5, ±1.5}·spacing and z = 0. |
| Monitor.OffsetsDistinct | src/main/kotlin/ru/mipt/npm/muon/sim/Monitor.kt:105-174 | The 16 offsets are pairwise distinct. |
| Monitor.OffsetsCoverGrid | src/main/kotlin/ru/mipt/npm/muon/sim/Monitor.kt:105-174 | Every cell of the 4×4 grid is some index's offset. |
| Monitor.PixelName | src/main/kotlin/ru/mipt/npm/muon/sim/Monitor.kt:176 | A pixel's name is its detector's name, "_" and its index. |
| Monitor.PixelNameInjective | src/main/kotlin/ru/mipt/npm/muon/sim/Monitor.kt:176 | Different indices give different pixel names. |
| Monitor.PixelNamesCount | src/main/kotlin/ru/mipt/npm/muon/sim/Monitor.kt:176 | The first n names of a detector are n distinct names, so a detector has 16. |
| Monitor.MakePixel | src/main/kotlin/ru/mipt/npm/muon/sim/Monitor.kt:175-177 | Pixel i is at the detector centre plus the rotated offset i. It fails exactly off the layer heights. |
| Monitor.BuildDetector | src/main/kotlin/ru/mipt/npm/muon/sim/Monitor.kt:100-181 | The map has exactly the 16 keys `detector_0` … `detector_15`. Each key holds a distinct fresh pixel of that name at its place, with the default sizes and efficiency. The build fails exactly when the centre is off the layer heights. |
| Monitor.DetectorPlaced | src/main/kotlin/ru/mipt/npm/muon/sim/Monitor.kt:101-180 | The map that the loop fills has the 16 names as keys, and each key holds its own placed pixel. |
| Monitor.GeometryLine | src/main/kotlin/ru/mipt/npm/muon/sim/Monitor.kt:57-65 | Only a line starting with a space places a detector. Its name is field 2, and its centre is fields 5–7 less 500, 500 and 180. A space-led line fails exactly when it has fewer than seven fields or one of fields 5–7 is not a number. |
| Monitor.Layout | src/main/kotlin/ru/mipt/npm/muon/sim/Monitor.kt:57-66 | The geometry file's lines folded into the placed pixels; LayoutPlaces and LayoutErrStays state its meaning. |
| Monitor.LayoutPlaces | src/main/kotlin/ru/mipt/npm/muon/sim/Monitor.kt:57-66 | The geometry file reads exactly when every line reads, and then it places, in file order, the detector of every space-led line. |
| Monitor.LayoutErrStays | src/main/kotlin/ru/mipt/npm/muon/sim/Monitor.kt:57-66 | A bad geometry line fails the whole read. |
| Monitor.ClassifyEff | src/main/kotlin/ru/mipt/npm/muon/sim/Monitor.kt:83-92 | The trimmed line's kind in the file's order of tests: "SC" gives the third field as detector name, "pixel" restarts the index, empty is skipped, otherwise the second field is the value. |
| Monitor.ReadEffs | src/main/kotlin/ru/mipt/npm/muon/sim/Monitor.kt:78-95 | The line loop computes the fold of the efficiency file, and fails exactly where the fold fails. |
| Monitor.EffErrStays | src/main/kotlin/ru/mipt/npm/muon/sim/Monitor.kt:82-93 | A bad efficiency-file line fails the whole read. |
| Monitor.EffValuesAdvance | src/main/kotlin/ru/mipt/npm/muon/sim/Monitor.kt:88-91 | A run of value lines keeps the detector and advances the index once per line. |
| Monitor.EffValuesKeep | src/main/kotlin/ru/mipt/npm/muon/sim/Monitor.kt:88-91 | A run of value lines leaves every key outside its own range as it was. |
| Monitor.EffValuesRecord | src/main/kotlin/ru/mipt/npm/muon/sim/Monitor.kt:88-91 | Value line j of a run is stored under "SC{det}_{from+j}", and no later line of the run overwrites it. |
| Monitor.EffBlock | src/main/kotlin/ru/mipt/npm/muon/sim/Monitor.kt:82-93 | An "SC" line, a "pixel" line and n value lines store efficiency j under "SC{det}_j" for the detector the "SC" line names. |
| Monitor.ApplyEfficiencies | src/main/kotlin/ru/mipt/npm/muon/sim/Monitor.kt:69-73 | Every pixel with a table entry takes its efficiency. Entries for unknown names are ignored, and the other pixels are unchanged. |
| Monitor.SlotsFacts | src/main/kotlin/ru/mipt/npm/muon/sim/Monitor.kt:100-102 | The first n names of a detector are keys exactly once each, every key naming the pixel of its index. |
| Monitor.OwnersKeys | src/main/kotlin/ru/mipt/npm/muon/sim/Monitor.kt:57-66 | After the `putAll` merges, the names are exactly the names of the pixels of every placed detector. |
| Monitor.OwnersLast | src/main/kotlin/ru/mipt/npm/muon/sim/Monitor.kt:64 | A pixel's name belongs to the last detector in the file that names it: `putAll` lets a later detector replace an earlier one's pixel. |
| Monitor.OwnersNames | src/main/kotlin/ru/mipt/npm/muon/sim/Monitor.kt:64 | Every merged name is the name its owning detector gives the pixel of its index. |
| Monitor.OwnersAppend | src/main/kotlin/ru/mipt/npm/muon/sim/Monitor.kt:64 | One `putAll` gives the new detector's names to it and leaves every other name with its owner. |
| Monitor.PixelsOfPutAll | src/main/kotlin/ru/mipt/npm/muon/sim/Monitor.kt:64 | Merging a fresh detector keeps each pixel stored under its own name and where its owning detector put it. |
| Monitor.BuildPixels | src/main/kotlin/ru/mipt/npm/muon/sim/Monitor.kt:53-76 | Succeeds exactly when both files read. The keys are the names of every placed detector's 16 pixels. Each pixel is fresh, has its own name, and is exactly the pixel that the last detector naming it placed, with the default sizes. Its efficiency is the table's entry, or the default 1 without one. |
| Text.SortPermutationInvariant | src/main/kotlin/ru/mipt/npm/muon/sim/Event.kt:16 | `sorted()` depends only on the elements, not on their order. |
| Text.SortedUnique | src/main/kotlin/ru/mipt/npm/muon/sim/Event.kt:16 | Two sorted sequences with the same elements are equal. |
| Text.SortSorted | src/main/kotlin/ru/mipt/npm/muon/sim/Event.kt:16 | `sorted()` returns a sequence in string order. |
| Text.Sort | src/main/kotlin/ru/mipt/npm/muon/sim/Event.kt:16 | `sorted()` returns the same strings, each as often. |
| Text.Join | src/main/kotlin/ru/mipt/npm/muon/sim/Event.kt:17 | joinToString: the pieces with the separator between them. |
| Text.Split | src/main/kotlin/ru/mipt/npm/muon/sim/app/MonitorView.kt:122 | split at one character, keeping empty pieces; never empty. |
| Text.Trim | src/main/kotlin/ru/mipt/npm/muon/sim/app/MonitorView.kt:118 | trim(): leading and trailing whitespace dropped; TrimPadded states it. |
| Text.SplitWs | src/main/kotlin/ru/mipt/npm/muon/sim/Monitor.kt:59 | split on runs of whitespace, with an empty first piece when the string starts with whitespace; never empty. |
| Text.SplitJoin | src/main/kotlin/ru/mipt/npm/muon/sim/app/MonitorView.kt:122 | Splitting a joined list at a character that no piece contains gives the pieces back. |
| Text.ParseInt | src/main/kotlin/ru/mipt/npm/muon/sim/ExperimentData.kt:24 | `toInt()` accepts an optional sign and digits within the 32-bit range. |
| Text.ParseIntToString | src/main/kotlin/ru/mipt/npm/muon/sim/ExperimentData.kt:24 | `toInt()` reads back every 32-bit integer's decimal form. |
| Text.ParseTriple | src/main/kotlin/ru/mipt/npm/muon/sim/SkyMap.kt:26-27 | A line gives a triple exactly when it has three whitespace fields that parse, and the triple is their values. |
| Text.DataLines | src/main/kotlin/ru/mipt/npm/muon/sim/SkyMap.kt:24-25 | The kept lines are, in order, the lines that do not start with "#". |
| Text.LoadTable | src/main/kotlin/ru/mipt/npm/muon/sim/SkyMap.kt:22-31 | One triple per kept line, in order. The read fails exactly when a kept line does not parse. |
| MonitorView.FullName | src/main/kotlin/ru/mipt/npm/muon/sim/app/MonitorView.kt:161-166 | "SC" is prepended exactly when the name does not already start with it. |
| MonitorView.FullNameIdempotent | src/main/kotlin/ru/mipt/npm/muon/sim/app/MonitorView.kt:162-166 | Completing a name twice is completing it once. |
| MonitorView.FullNameInjective | src/main/kotlin/ru/mipt/npm/muon/sim/app/MonitorView.kt:162-166 | Names that agree on carrying the prefix are completed apart exactly when they differ. |
| MonitorView.Unbracket | src/main/kotlin/ru/mipt/npm/muon/sim/app/MonitorView.kt:118-121 | Text starting with "[" loses its first and last character. A lone "[" throws. |
| MonitorView.Pieces | src/main/kotlin/ru/mipt/npm/muon/sim/app/MonitorView.kt:118-122 | The unbracketed text is split on ',' and each piece is trimmed. |
| MonitorView.LookupAll | src/main/kotlin/ru/mipt/npm/muon/sim/app/MonitorView.kt:122 | The names resolve, in order, to the pixels of their completed names. It fails exactly when some completed name is unknown. |
| MonitorView.UnbracketIdentity | src/main/kotlin/ru/mipt/npm/muon/sim/app/MonitorView.kt:118-121 | An identity string is already trimmed, and unbracketing it gives the joined sorted names. |
| MonitorView.TrimmedPieces | src/main/kotlin/ru/mipt/npm/muon/sim/app/MonitorView.kt:122 | Splitting ", "-joined, comma-free, tight names and trimming the pieces gives the names back. |
| MonitorView.PiecesOfJoined | src/main/kotlin/ru/mipt/npm/muon/sim/app/MonitorView.kt:118-122 | A text whose unbracketed core is such a join yields exactly those names. |
| MonitorView.PiecesOfIdentity | src/main/kotlin/ru/mipt/npm/muon/sim/app/MonitorView.kt:118-122 | Round trip: parsing a getIdentity string yields exactly the sorted hit names. |
| MonitorView.PiecesOfEmptyIdentity | src/main/kotlin/ru/mipt/npm/muon/sim/app/MonitorView.kt:118-122 | "[]" asks for the single empty name. |
| MonitorView.Highlighter.constructor | src/main/kotlin/ru/mipt/npm/muon/sim/app/MonitorView.kt:61 | The highlighted list starts empty. |
| MonitorView.Highlighter.OnEnter | src/main/kotlin/ru/mipt/npm/muon/sim/app/MonitorView.kt:112-127 | Empty text clears the list. Text that resolves replaces the list. Otherwise the list is unchanged and the "Wrong syntax" alert is raised. |
| MonitorView.HighlightIdentity | src/main/kotlin/ru/mipt/npm/muon/sim/app/MonitorView.kt:118-124 | Entering an event's identity highlights exactly its hit pixels, in name order. |

## Left out

- I/O is replaced by data:
  - Files, resources, zip archives and the output streams are sequences of lines.
  - `print` output is returned as strings.
  - The `directionMap` disk cache, the JSON writer, `runSimulation`'s and `evalData`'s printf rows, and `generateMap(parameters)` are not modelled.
- Concurrency: the parallel streams, `ConcurrentHashMap` and `AtomicInteger` in `simulateN` and `generateMap` are sequential folds. The check-then-put race at Simulation.kt:37-39 is not modelled.
- HashMap and HashSet iteration orders are left open:
  - `printEventAsRaw` takes the detector order as given.
  - `defaultHitResolver` and `generateMap` do not fix an order.
  - `evalData` sums over a set.
- Floating point is exact `real` arithmetic, without rounding. NaN (0/0 in `average`, a zero-event efficiency) is `None`.
- Trigonometry, `acos`, `sqrt` and `pow` are parameters:
  - `Vector3D(alpha, delta)` and the angle getters `getTheta`/`getPhi`.
  - The Cos2 acceptance test.
  - `getFactor`'s normalisation after the product, and the `sqrt` in `plgndrTest`.
- `toDouble()` is a parameter. `Double.toInt()` is truncation with saturation at the `Int` range.
- Text.ParseInt: accepts ASCII digits only. `Integer.parseInt` also accepts every other Unicode decimal digit (`Character.digit`), such as Arabic-Indic or full-width digits. The model rejects those strings.
- Text.Sort / Text.LexLe: compare strings by code point. Kotlin's `compareTo` compares UTF-16 code units. The orders differ only when a character above U+FFFF meets one in U+E000–U+FFFF at the same position.
- SkyMap.AddEvents: the cells are Kotlin `AtomicInteger`s, and `addAndGet` (SkyMap.kt:82) wraps past 2^31 − 1. The model's cells are unbounded, so its totals and its positive weights are exact only while every cell stays at most 2^31 − 1.
- SkyMap.GenerateCells: the same bound applies to the cell totals it accumulates.
- SkyMap.GenerateMap: the same bound applies to the weights it returns.
- ExperimentData.EvalData: `simCount` and `dataCount` (ExperimentData.kt:64-72) are Kotlin `Int`s and wrap past 2^31 − 1. The model's sums are exact only while they stay within the `Int` range.
- Simulation.SimulateN: `Counter.count` (Simulation.kt:51, 60) is a Kotlin `Int`. The model's counts are unbounded, so they are exact only below 2^31 events per identity.
- `Counter.angleErr`, `getMeanPhi` and `getMeanTheta` are left out: they are spherical angles and a square root of floating-point sums.
- `SphericalHarmonics.associatedLegendre`/`plgndr` (commons-math polynomials), `spherical`, `sphericalValue`, the chi² functions and the Nelder–Mead `fit` are left out (library numerics). Only the array size `fit` asks for is modelled, in LayoutBelow and LayoutLast.
- `EmpiricalDistributionTrackGenerator`'s `EnumeratedRealDistribution` sampling is an index parameter. Its file reading at Simulation.kt:149-155 follows the same format as `loadMap` and is covered by Text.LoadTable.
- The random source `rnd` is a sequence of draws in [0, 1) passed in (`IsDraw`).
- The Kotlin files are from different revisions and disagree. Each file is modelled as written:
  - Pixel.kt has no `efficiency` field, but Monitor.kt:71 assigns one. The model's `Pixel` carries a mutable `efficiency` that starts at 1 (`DEFAULT_EFFICIENCY`) and that `isHit` never reads.
  - SkyMap.kt:72 calls a 3-argument `simulateN` and reads `Counter.events`. Neither exists in Simulation.kt. `GenerateMap` therefore takes the simulated events per identity as a map.
  - `TrackGenerator`/`UniformTrackGenerator` exist twice, in Track.kt:51-67 and Simulation.kt:120-135, with different ranges. Both are modelled: Tracks.UniformBounds and Simulation.SimUniformBounds.
  - `getDetectorNumber`/`getPixelNumber` (Event.kt:42-43) are not defined in Pixel.kt. They are parameters.
  - `simulateN` keys counters by `Event.toString()` (Simulation.kt:36), which Event.kt does not define beyond the data-class default. The key is a parameter. Results such as ExperimentData.UsedSimulated apply when it is the identity.
  - `Track.getDirection` does not exist in Track.kt. It is a parameter.
- Simulation.SimulateN: the generation step is not modelled. It takes the already generated events.
- Efficiency.SimulateSingleDirection: it takes the events the fixed-angle generator produced, so numCalls is their number.
- SphericalHarmonics.FuncsUpToCounts: `(order + 1) * (order + 1)` (SphericalHarmonics.kt:130) is a Kotlin `Int` product and wraps from order 46340 on. The model's count is exact, so it agrees with the source only below order 46340, as FuncsUpToInIntRange proves.
- SphericalHarmonics.EvenFuncsUpToCounts: `(res + 1) * (res / 2 + 1)` (SphericalHarmonics.kt:147) wraps from order 65536 on. The model's count agrees with the source only below that order, as EvenFuncsUpToInIntRange proves.
- Efficiency.UpdateProgress: requires that (p·50).toInt() is below Int.MAX_VALUE. At that value the source's first loop never ends, because `i` wraps around.
- SphericalHarmonics.PlgndrTest: takes the value of sqrt((1-x)(1+x)) as a parameter, computed even when m = 0, where the source does not use it.
- MonitorView: only the Enter handler's parsing and `findPixelByName` are modelled. The JavaFX scene, the change listener that colours pixels and the alert dialog are left out (the alert is a returned message).
- Monitor.ReadEffs: the exceptions from indexing a missing field and from `toDouble()` become the errors "Bad detector line" and "Bad efficiency line".
- Four behaviours of the code that a reader might not expect, all modelled as written:
  - The sky-map weight of an identity is its data count itself, or 1 without data (SkyMap.kt:75). It is not divided by the simulated count.
  - Sky-map bins are fixed at 1°, with centre floor + 0.5 (SkyMap.kt:68).
  - `isHit` never consults the efficiency (Pixel.kt:34-37).
  - The cos² sampler tries 501 candidates, `0..500`, before it throws (Simulation.kt:201-209).
