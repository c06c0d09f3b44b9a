/**
 * Building the monitor (Monitor.kt): the 4x4 pixel layout of a detector,
 * its rotation, the efficiency table reader and the geometry-file step
 * that places the detectors.
 */
module Monitor {
  import opened Wrappers
  import opened Text
  import opened SeqUtil
  import opened Geometry
  import opened MonitorConstants
  import opened MonitorLayers
  import opened Pixels

  // ---------------------------------------------------------------------
  // Detector layout
  // ---------------------------------------------------------------------

  /** `rotateDetector`: a quarter turn about the z axis. */
  function Rotate(v: Vec): (r: Vec)
    ensures r.z == v.z
  {
    Vec(-v.y, v.x, v.z)
  }

  /** A quarter turn keeps the length. */
  lemma RotateKeepsLength(v: Vec)
    ensures NormSq(Rotate(v)) == NormSq(v)
  {
  }

  /** Four quarter turns bring every vector back. */
  lemma RotateFourTimes(v: Vec)
    ensures Rotate(Rotate(Rotate(Rotate(v)))) == v
  {
  }

  /** A quarter turn fixes exactly the vectors on the z axis. */
  lemma RotateFixesOnlyAxis(v: Vec)
    ensures Rotate(v) == v <==> v.x == 0.0 && v.y == 0.0
  {
  }

  /**
   * The `when (index)` table of buildDetector: the unrotated offset of
   * pixel `index` from the detector's centre, in units of the pixel
   * spacing; None for any other index (the `else` branch throws).
   */
  function OffsetUnits(index: int): (r: Option<(real, real)>)
    ensures r.Some? <==> 0 <= index < 16
  {
    match index
    case 7 => Some((1.5, 1.5))
    case 4 => Some((0.5, 1.5))
    case 6 => Some((1.5, 0.5))
    case 5 => Some((0.5, 0.5))
    case 3 => Some((-1.5, 1.5))
    case 0 => Some((-0.5, 1.5))
    case 2 => Some((-1.5, 0.5))
    case 1 => Some((-0.5, 0.5))
    case 11 => Some((-1.5, -1.5))
    case 8 => Some((-0.5, -1.5))
    case 10 => Some((-1.5, -0.5))
    case 9 => Some((-0.5, -0.5))
    case 15 => Some((1.5, -1.5))
    case 12 => Some((0.5, -1.5))
    case 14 => Some((1.5, -0.5))
    case 13 => Some((0.5, -0.5))
    case _ => None
  }

  /** The unrotated offset vector of pixel `index`. */
  function Offset(index: int): Option<Vec>
  {
    match OffsetUnits(index)
    case None => None
    case Some((a, b)) => Some(Vec(a * PIXEL_XY_SPACING, b * PIXEL_XY_SPACING, 0.0))
  }

  predicate IsGridCoordinate(a: real)
  {
    a in {-1.5 * PIXEL_XY_SPACING, -0.5 * PIXEL_XY_SPACING, 0.5 * PIXEL_XY_SPACING, 1.5 * PIXEL_XY_SPACING}
  }

  /** Every offset lies in the detector plane on the grid of half-odd multiples of the spacing. */
  lemma OffsetOnGrid(index: int)
    requires 0 <= index < 16
    ensures Offset(index).Some?
    ensures IsGridCoordinate(Offset(index).value.x) && IsGridCoordinate(Offset(index).value.y)
    ensures Offset(index).value.z == 0.0
  {
  }

  /** No two indices share an offset: the 16 pixels fill the 4x4 grid. */
  lemma OffsetsDistinct(i: int, j: int)
    requires 0 <= i < 16 && 0 <= j < 16 && i != j
    ensures Offset(i) != Offset(j)
  {
  }

  /** Every grid position is taken by some index. */
  lemma OffsetsCoverGrid(a: real, b: real)
    requires IsGridCoordinate(a) && IsGridCoordinate(b)
    ensures exists i :: 0 <= i < 16 && Offset(i) == Some(Vec(a, b, 0.0))
  {
    var s := PIXEL_XY_SPACING;
    var i :=
      if a == 1.5 * s then (if b == 1.5 * s then 7 else if b == 0.5 * s then 6 else if b == -0.5 * s then 14 else 15)
      else if a == 0.5 * s then (if b == 1.5 * s then 4 else if b == 0.5 * s then 5 else if b == -0.5 * s then 13 else 12)
      else if a == -0.5 * s then (if b == 1.5 * s then 0 else if b == 0.5 * s then 1 else if b == -0.5 * s then 9 else 8)
      else (if b == 1.5 * s then 3 else if b == 0.5 * s then 2 else if b == -0.5 * s then 10 else 11);
    assert Offset(i) == Some(Vec(a, b, 0.0));
  }

  /** `"${detectorName}_${index}"`. */
  function PixelName(detector: string, index: int): string
  {
    detector + "_" + IntToString(index)
  }

  lemma PixelNameInjective(detector: string, i: nat, j: nat)
    requires PixelName(detector, i) == PixelName(detector, j)
    ensures i == j
  {
    var pre := detector + "_";
    assert PixelName(detector, i) == pre + NatToString(i);
    assert PixelName(detector, j) == pre + NatToString(j);
    assert NatToString(i) == PixelName(detector, i)[|pre|..];
    assert NatToString(j) == PixelName(detector, j)[|pre|..];
    NatToStringInjective(i, j);
  }

  /** Where pixel `index` of a detector centred at `pos` sits. */
  function PixelCenter(pos: Vec, index: int): Vec
    requires 0 <= index < 16
  {
    Add(pos, Rotate(Offset(index).value))
  }

  /** buildDetector's `for (index in 0..15)`. */
  const PIXELS_PER_DETECTOR: nat := 16

  /** Pixel `index` of a detector named `detector` centred at `pos`, as buildDetector makes it. */
  ghost predicate Placed(p: Pixel, detector: string, pos: Vec, index: int)
    requires 0 <= index < PIXELS_PER_DETECTOR
  {
    p.name == PixelName(detector, index) && Shaped(p, pos, index)
  }

  /** Everything Placed says but the name: where the pixel sits and its sizes. */
  ghost predicate Shaped(p: Pixel, pos: Vec, index: int)
    requires 0 <= index < PIXELS_PER_DETECTOR
  {
    p.Valid() && p.center == PixelCenter(pos, index)
    && p.xSize == PIXEL_XY_SIZE && p.ySize == PIXEL_XY_SIZE && p.zSize == PIXEL_Z_SIZE
  }

  /** The names of a detector's first n pixels. */
  function PixelNames(detector: string, n: nat): (r: set<string>)
    ensures forall name :: name in r <==> exists i :: 0 <= i < n && name == PixelName(detector, i)
  {
    var r := Image(Range(n), NameOf(detector));
    forall name | exists i :: 0 <= i < n && name == PixelName(detector, i) ensures name in r {
      var i :| 0 <= i < n && name == PixelName(detector, i);
      assert NameOf(detector)(i) == name;
    }
    r
  }

  function NameOf(detector: string): int -> string
  {
    i => PixelName(detector, i)
  }

  /** One pass of buildDetector's loop: pixel `index` at its rotated offset. */
  method MakePixel(detector: string, pos: Vec, index: int) returns (r: Result<Pixel>)
    requires 0 <= index < PIXELS_PER_DETECTOR
    ensures r.Err? <==> !IsLayerHeight(pos.z)
    ensures r.Ok? ==> fresh(r.value) && Placed(r.value, detector, pos, index)
    ensures r.Ok? ==> r.value.efficiency == DEFAULT_EFFICIENCY
  {
    OffsetOnGrid(index);
    var offset := Rotate(Offset(index).value);
    r := NewDefaultPixel(PixelName(detector, index), Add(pos, offset));
  }

  /**
   * `buildDetector`: the 16 pixels of a detector, named `detector_0` to
   * `detector_15`, at the rotated offsets from its centre, with the default
   * sizes. It fails, as the Pixel constructor does, unless the centre lies
   * at a layer height.
   */
  method BuildDetector(detector: string, pos: Vec) returns (r: Result<map<string, Pixel>>)
    ensures r.Err? <==> !IsLayerHeight(pos.z)
    ensures r.Ok? ==> r.value.Keys == PixelNames(detector, PIXELS_PER_DETECTOR)
    ensures r.Ok? ==> forall i :: 0 <= i < PIXELS_PER_DETECTOR ==>
      PixelName(detector, i) in r.value && fresh(r.value[PixelName(detector, i)])
      && Placed(r.value[PixelName(detector, i)], detector, pos, i)
    ensures r.Ok? ==> forall k :: k in r.value ==> r.value[k].name == k
    ensures r.Ok? ==> forall a, b :: a in r.value && b in r.value && a != b ==> r.value[a] != r.value[b]
    ensures r.Ok? ==> forall k :: k in r.value ==> fresh(r.value[k]) && r.value[k].efficiency == DEFAULT_EFFICIENCY
  {
    var pixels: map<string, Pixel> := map[];
    ghost var built: seq<Pixel> := [];
    for index := 0 to PIXELS_PER_DETECTOR
      invariant |built| == index
      invariant pixels == DetectorMap(detector, built)
      invariant forall i :: 0 <= i < index ==> fresh(built[i])
      invariant forall i :: 0 <= i < index ==> built[i].efficiency == DEFAULT_EFFICIENCY
      invariant AllPlaced(built, detector, pos)
      invariant index > 0 ==> IsLayerHeight(pos.z)
    {
      var made := MakePixel(detector, pos, index);
      if made.Err? {
        return Err(made.msg);
      }
      pixels := pixels[PixelName(detector, index) := made.value];
      built := built + [made.value];
      assert built[..index] == built[..|built| - 1];
    }
    DetectorPlaced(detector, pos, built);
    forall i | 0 <= i < PIXELS_PER_DETECTOR ensures fresh(pixels[PixelName(detector, i)]) {
      assert pixels[PixelName(detector, i)] == built[i];
    }
    forall k | k in pixels ensures fresh(pixels[k]) && pixels[k].efficiency == DEFAULT_EFFICIENCY {
      var i :| 0 <= i < PIXELS_PER_DETECTOR && k == PixelName(detector, i);
      assert pixels[k] == built[i];
    }
    return Ok(pixels);
  }

  /** Pixel i of `s` is pixel i of the detector, for every i (buildDetector's loop invariant). */
  ghost predicate AllPlaced(s: seq<Pixel>, detector: string, pos: Vec)
    requires |s| <= PIXELS_PER_DETECTOR
  {
    |s| == 0 || (AllPlaced(s[..|s| - 1], detector, pos) && Placed(s[|s| - 1], detector, pos, |s| - 1))
  }

  lemma {:induction false} AllPlacedAt(s: seq<Pixel>, detector: string, pos: Vec, i: nat)
    requires |s| <= PIXELS_PER_DETECTOR && AllPlaced(s, detector, pos)
    requires i < |s|
    ensures Placed(s[i], detector, pos, i)
    decreases |s|
  {
    if i < |s| - 1 {
      AllPlacedAt(s[..|s| - 1], detector, pos, i);
    }
  }

  /** What buildDetector's map holds once all 16 pixels are placed. */
  lemma DetectorPlaced(detector: string, pos: Vec, s: seq<Pixel>)
    requires |s| == PIXELS_PER_DETECTOR && AllPlaced(s, detector, pos)
    ensures DetectorMap(detector, s).Keys == PixelNames(detector, PIXELS_PER_DETECTOR)
    ensures forall i :: 0 <= i < PIXELS_PER_DETECTOR ==>
      PixelName(detector, i) in DetectorMap(detector, s) && DetectorMap(detector, s)[PixelName(detector, i)] == s[i]
      && Placed(s[i], detector, pos, i)
    ensures forall k :: k in DetectorMap(detector, s) ==> DetectorMap(detector, s)[k].name == k
    ensures forall a, b :: a in DetectorMap(detector, s) && b in DetectorMap(detector, s) && a != b ==>
      DetectorMap(detector, s)[a] != DetectorMap(detector, s)[b]
  {
    forall i | 0 <= i < |s| ensures Placed(s[i], detector, pos, i) {
      AllPlacedAt(s, detector, pos, i);
    }
    DetectorMapFacts(detector, s);
  }

  /** The map buildDetector fills: pixel i of `s` under the name `detector_i`. */
  function DetectorMap(detector: string, s: seq<Pixel>): map<string, Pixel>
  {
    if |s| == 0 then map[]
    else DetectorMap(detector, s[..|s| - 1])[PixelName(detector, |s| - 1) := s[|s| - 1]]
  }

  lemma {:induction false} DetectorMapFacts(detector: string, s: seq<Pixel>)
    requires forall i :: 0 <= i < |s| ==> s[i].name == PixelName(detector, i)
    ensures DetectorMap(detector, s).Keys == PixelNames(detector, |s|)
    ensures forall i :: 0 <= i < |s| ==>
      PixelName(detector, i) in DetectorMap(detector, s) && DetectorMap(detector, s)[PixelName(detector, i)] == s[i]
    ensures forall k :: k in DetectorMap(detector, s) ==> DetectorMap(detector, s)[k].name == k
    ensures forall a, b :: a in DetectorMap(detector, s) && b in DetectorMap(detector, s) && a != b ==>
      DetectorMap(detector, s)[a] != DetectorMap(detector, s)[b]
  {
    DetectorMapAt(detector, s);
    var m := DetectorMap(detector, s);
    forall k | k in m ensures m[k].name == k {
      var i :| 0 <= i < |s| && k == PixelName(detector, i);
    }
  }

  lemma DetectorMapAt(detector: string, s: seq<Pixel>)
    ensures DetectorMap(detector, s).Keys == PixelNames(detector, |s|)
    ensures forall i :: 0 <= i < |s| ==>
      PixelName(detector, i) in DetectorMap(detector, s) && DetectorMap(detector, s)[PixelName(detector, i)] == s[i]
  {
    DetectorMapKeys(detector, s);
    forall i | 0 <= i < |s|
      ensures PixelName(detector, i) in DetectorMap(detector, s) && DetectorMap(detector, s)[PixelName(detector, i)] == s[i]
    {
      DetectorMapValue(detector, s, i);
    }
  }

  lemma {:induction false} DetectorMapKeys(detector: string, s: seq<Pixel>)
    ensures DetectorMap(detector, s).Keys == PixelNames(detector, |s|)
  {
    if |s| > 0 {
      var n := |s| - 1;
      DetectorMapKeys(detector, s[..n]);
      PixelNamesStep(detector, n);
      assert DetectorMap(detector, s).Keys == DetectorMap(detector, s[..n]).Keys + {PixelName(detector, n)};
    }
  }

  lemma {:induction false} DetectorMapValue(detector: string, s: seq<Pixel>, i: nat)
    requires i < |s|
    ensures PixelName(detector, i) in DetectorMap(detector, s)
    ensures DetectorMap(detector, s)[PixelName(detector, i)] == s[i]
  {
    var n := |s| - 1;
    if i < n {
      DetectorMapValue(detector, s[..n], i);
      assert PixelName(detector, i) != PixelName(detector, n) by {
        if PixelName(detector, i) == PixelName(detector, n) {
          PixelNameInjective(detector, i, n);
        }
      }
    }
  }

  lemma PixelNamesStep(detector: string, n: nat)
    ensures PixelName(detector, n) !in PixelNames(detector, n)
    ensures PixelNames(detector, n + 1) == PixelNames(detector, n) + {PixelName(detector, n)}
  {
    if PixelName(detector, n) in PixelNames(detector, n) {
      var i :| 0 <= i < n && PixelName(detector, n) == PixelName(detector, i);
      PixelNameInjective(detector, i, n);
    }
  }

  /** The first n pixel names of a detector are n different names; a detector has 16. */
  lemma PixelNamesCount(detector: string, n: nat)
    ensures |PixelNames(detector, n)| == n
  {
    forall i, j | i in Range(n) && j in Range(n) && PixelName(detector, i) == PixelName(detector, j)
      ensures i == j
    {
      PixelNameInjective(detector, i, j);
    }
    InjectiveImage(Range(n), NameOf(detector));
    RangeCount(n);
  }

  // ---------------------------------------------------------------------
  // readEffs
  // ---------------------------------------------------------------------

  /** What readEffs keeps between lines: the current detector, the next pixel index and the table. */
  datatype EffReader = EffReader(detector: string, index: nat, effs: map<string, real>)

  const EffStart: EffReader := EffReader("", 0, map[])

  /**
   * The key an efficiency is stored under, `"SC${detectorName}_${index}"`:
   * the name buildDetector gives pixel `index` of detector "SC" + detector.
   */
  function EffKey(detector: string, index: nat): string
  {
    PixelName("SC" + detector, index)
  }

  /**
   * What a line of the efficiency file says once trimmed: a detector line
   * (with its third field, None when there is none), the start of a pixel
   * table, a blank line, or an efficiency line (with its second field as a
   * number, None when it is missing or not a number).
   */
  datatype EffLine =
    | DetectorLine(name: Option<string>)
    | PixelLine
    | BlankLine
    | ValueLine(eff: Option<real>)

  /** readEffs' tests on the trimmed line, in its order. */
  function ClassifyEff(line: string, parseDouble: string -> Option<real>): EffLine
  {
    var trimmed := Trim(line);
    if StartsWith(trimmed, "SC") then
      var fields := SplitWs(trimmed);
      DetectorLine(if |fields| < 3 then None else Some(fields[2]))
    else if StartsWith(trimmed, "pixel") then
      PixelLine
    else if trimmed == [] then
      BlankLine
    else
      var fields := SplitWs(trimmed);
      ValueLine(if |fields| < 2 then None else parseDouble(fields[1]))
  }

  function EffKinds(lines: seq<string>, parseDouble: string -> Option<real>): seq<EffLine>
  {
    seq(|lines|, i requires 0 <= i < |lines| => ClassifyEff(lines[i], parseDouble))
  }

  /**
   * One line of readEffs. A detector line without a third field, or an
   * efficiency line whose second field is missing or not a number, makes
   * readEffs throw (Err).
   */
  function EffStep(st: EffReader, k: EffLine): Result<EffReader>
  {
    match k
    case DetectorLine(name) =>
      if name.None? then Err("Bad detector line") else Ok(st.(detector := name.value))
    case PixelLine => Ok(st.(index := 0))
    case BlankLine => Ok(st)
    case ValueLine(eff) =>
      if eff.None? then Err("Bad efficiency line")
      else Ok(EffReader(st.detector, st.index + 1, st.effs[EffKey(st.detector, st.index) := eff.value]))
  }

  /** readEffs' line loop as a left fold over the classified lines; the first error stops it. */
  function EffFold(r: Result<EffReader>, ks: seq<EffLine>): Result<EffReader>
    decreases |ks|
  {
    if ks == [] || r.Err? then r
    else EffFold(EffStep(r.value, ks[0]), ks[1..])
  }

  /** readEffs' line loop over the lines of the file. */
  function EffRun(r: Result<EffReader>, lines: seq<string>, parseDouble: string -> Option<real>): Result<EffReader>
  {
    EffFold(r, EffKinds(lines, parseDouble))
  }

  lemma {:induction false} EffFoldAppend(r: Result<EffReader>, a: seq<EffLine>, b: seq<EffLine>)
    ensures EffFold(r, a + b) == EffFold(EffFold(r, a), b)
    decreases |a|
  {
    if a == [] {
      assert a + b == b;
    } else if r.Err? {
      EffErrAbsorbs(r, b);
    } else {
      assert (a + b)[1..] == a[1..] + b;
      EffFoldAppend(EffStep(r.value, a[0]), a[1..], b);
    }
  }

  lemma {:induction false} EffErrAbsorbs(r: Result<EffReader>, ks: seq<EffLine>)
    requires r.Err?
    ensures EffFold(r, ks) == r
    decreases |ks|
  {
    if ks != [] {
      EffErrAbsorbs(r, ks[1..]);
    }
  }

  lemma EffKindsSplit(lines: seq<string>, n: nat, parseDouble: string -> Option<real>)
    requires n <= |lines|
    ensures EffKinds(lines, parseDouble) == EffKinds(lines[..n], parseDouble) + EffKinds(lines[n..], parseDouble)
  {
  }

  /** Once a prefix fails, the whole run fails. */
  lemma EffErrStays(lines: seq<string>, n: nat, parseDouble: string -> Option<real>)
    requires n <= |lines|
    requires EffRun(Ok(EffStart), lines[..n], parseDouble).Err?
    ensures EffRun(Ok(EffStart), lines, parseDouble).Err?
  {
    EffKindsSplit(lines, n, parseDouble);
    EffFoldAppend(Ok(EffStart), EffKinds(lines[..n], parseDouble), EffKinds(lines[n..], parseDouble));
    EffErrAbsorbs(EffRun(Ok(EffStart), lines[..n], parseDouble), EffKinds(lines[n..], parseDouble));
  }

  /** Reading one more line is one more step of the fold. */
  lemma EffRunSnoc(lines: seq<string>, i: nat, parseDouble: string -> Option<real>)
    requires i < |lines|
    requires EffRun(Ok(EffStart), lines[..i], parseDouble).Ok?
    ensures EffRun(Ok(EffStart), lines[..i + 1], parseDouble)
      == EffStep(EffRun(Ok(EffStart), lines[..i], parseDouble).value, ClassifyEff(lines[i], parseDouble))
  {
    var k := ClassifyEff(lines[i], parseDouble);
    assert EffKinds(lines[..i + 1], parseDouble) == EffKinds(lines[..i], parseDouble) + [k];
    EffFoldAppend(Ok(EffStart), EffKinds(lines[..i], parseDouble), [k]);
  }

  /** `readEffs`: the pixel name -> efficiency table of an efficiency file, read line by line. */
  method ReadEffs(lines: seq<string>, parseDouble: string -> Option<real>) returns (r: Result<map<string, real>>)
    ensures r.Err? <==> EffRun(Ok(EffStart), lines, parseDouble).Err?
    ensures r.Ok? ==> r.value == EffRun(Ok(EffStart), lines, parseDouble).value.effs
  {
    var detector: string := "";
    var index := 0;
    var effs: map<string, real> := map[];
    for i := 0 to |lines|
      invariant EffRun(Ok(EffStart), lines[..i], parseDouble) == Ok(EffReader(detector, index, effs))
    {
      var line := lines[i];
      EffRunSnoc(lines, i, parseDouble);
      var trimmed := Trim(line);
      if StartsWith(trimmed, "SC") {
        var fields := SplitWs(trimmed);
        if |fields| < 3 {
          EffErrStays(lines, i + 1, parseDouble);
          return Err("Bad detector line");
        }
        detector := fields[2];
      } else if StartsWith(trimmed, "pixel") {
        index := 0;
      } else if trimmed != [] {
        var fields := SplitWs(trimmed);
        if |fields| < 2 {
          EffErrStays(lines, i + 1, parseDouble);
          return Err("Bad efficiency line");
        }
        var eff := parseDouble(fields[1]);
        if eff.None? {
          EffErrStays(lines, i + 1, parseDouble);
          return Err("Bad efficiency line");
        }
        effs := effs[EffKey(detector, index) := eff.value];
        index := index + 1;
      }
    }
    assert lines[..|lines|] == lines;
    return Ok(effs);
  }

  /** `key` is one of the keys EffKey(detector, from) .. EffKey(detector, from + n - 1). */
  predicate KeyInRun(key: string, detector: string, from: nat, n: nat)
  {
    exists i: nat :: from <= i < from + n && key == EffKey(detector, i)
  }

  /** Every classified line is an efficiency line carrying a number. */
  predicate AllValues(ks: seq<EffLine>)
  {
    forall i :: 0 <= i < |ks| ==> ks[i].ValueLine? && ks[i].eff.Some?
  }

  /** A run of efficiency lines succeeds, keeps the detector and advances the index once per line. */
  lemma {:induction false} EffValuesAdvance(st: EffReader, ks: seq<EffLine>)
    requires AllValues(ks)
    ensures EffFold(Ok(st), ks).Ok?
    ensures EffFold(Ok(st), ks).value.detector == st.detector
    ensures EffFold(Ok(st), ks).value.index == st.index + |ks|
    decreases |ks|
  {
    if ks != [] {
      EffValuesAdvance(EffStep(st, ks[0]).value, ks[1..]);
    }
  }

  /** A run of efficiency lines read at index `from` leaves every key outside its run as it was. */
  lemma {:induction false} EffValuesKeep(st: EffReader, ks: seq<EffLine>, key: string)
    requires AllValues(ks)
    requires !KeyInRun(key, st.detector, st.index, |ks|)
    ensures EffFold(Ok(st), ks).Ok?
    ensures key in EffFold(Ok(st), ks).value.effs <==> key in st.effs
    ensures key in st.effs ==> EffFold(Ok(st), ks).value.effs[key] == st.effs[key]
    decreases |ks|
  {
    EffValuesAdvance(st, ks);
    if ks != [] {
      var st' := EffStep(st, ks[0]).value;
      assert key != EffKey(st.detector, st.index) by {
        assert st.index <= st.index < st.index + |ks|;
      }
      forall i: nat | st.index + 1 <= i < st.index + |ks|
        ensures key != EffKey(st.detector, i)
      {
        assert st.index <= i < st.index + |ks|;
      }
      EffValuesKeep(st', ks[1..], key);
    }
  }

  /**
   * A run of efficiency lines read at index `from` stores line j under
   * EffKey(detector, from + j); later lines of the run cannot overwrite it.
   */
  lemma {:induction false} EffValuesRecord(st: EffReader, ks: seq<EffLine>, j: nat)
    requires AllValues(ks)
    requires j < |ks|
    ensures EffFold(Ok(st), ks).Ok?
    ensures EffKey(st.detector, st.index + j) in EffFold(Ok(st), ks).value.effs
    ensures EffFold(Ok(st), ks).value.effs[EffKey(st.detector, st.index + j)] == ks[j].eff.value
    decreases |ks|
  {
    if j > 0 {
      var st' := EffStep(st, ks[0]).value;
      assert ks[1..][j - 1] == ks[j];
      EffValuesRecord(st', ks[1..], j - 1);
    } else {
      EffValuesRecordFirst(st, ks);
    }
  }

  /** EffValuesRecord for the first line of the run. */
  lemma EffValuesRecordFirst(st: EffReader, ks: seq<EffLine>)
    requires AllValues(ks) && ks != []
    ensures EffFold(Ok(st), ks).Ok?
    ensures EffKey(st.detector, st.index) in EffFold(Ok(st), ks).value.effs
    ensures EffFold(Ok(st), ks).value.effs[EffKey(st.detector, st.index)] == ks[0].eff.value
  {
    var st' := EffStep(st, ks[0]).value;
    var key := EffKey(st.detector, st.index);
    forall i: nat | st.index + 1 <= i < st.index + |ks|
      ensures key != EffKey(st.detector, i)
    {
      if key == EffKey(st.detector, i) {
        PixelNameInjective("SC" + st.detector, st.index, i);
      }
    }
    EffValuesKeep(st', ks[1..], key);
  }

  /** A line that records an efficiency: non-blank once trimmed, neither an "SC" nor a "pixel" line, with a number in its second field. */
  predicate IsEffLine(line: string, parseDouble: string -> Option<real>)
  {
    ClassifyEff(line, parseDouble).ValueLine? && ClassifyEff(line, parseDouble).eff.Some?
  }

  /** The efficiency an efficiency line carries. */
  function EffValue(line: string, parseDouble: string -> Option<real>): real
    requires IsEffLine(line, parseDouble)
  {
    ClassifyEff(line, parseDouble).eff.value
  }

  /**
   * A detector block: an "SC" line naming detector d in its third field, a
   * "pixel" line, then n efficiency lines. Its efficiencies land under
   * EffKey(d, 0) .. EffKey(d, n - 1), whatever index the previous block left.
   */
  lemma EffBlock(st: EffReader, header: string, pixelLine: string, lines: seq<string>, parseDouble: string -> Option<real>)
    requires StartsWith(Trim(header), "SC") && |SplitWs(Trim(header))| >= 3
    requires StartsWith(Trim(pixelLine), "pixel")
    requires forall j :: 0 <= j < |lines| ==> IsEffLine(lines[j], parseDouble)
    ensures EffRun(Ok(st), [header, pixelLine] + lines, parseDouble).Ok?
    ensures forall j :: 0 <= j < |lines| ==>
      EffKey(SplitWs(Trim(header))[2], j) in EffRun(Ok(st), [header, pixelLine] + lines, parseDouble).value.effs
      && EffRun(Ok(st), [header, pixelLine] + lines, parseDouble).value.effs[EffKey(SplitWs(Trim(header))[2], j)]
         == EffValue(lines[j], parseDouble)
  {
    var d := SplitWs(Trim(header))[2];
    var ks := EffKinds(lines, parseDouble);
    var st2 := st.(detector := d, index := 0);
    assert EffRun(Ok(st), [header, pixelLine] + lines, parseDouble) == EffFold(Ok(st2), ks) by {
      var all := EffKinds([header, pixelLine] + lines, parseDouble);
      assert all[0] == ClassifyEff(header, parseDouble) == DetectorLine(Some(d));
      assert all[1] == ClassifyEff(pixelLine, parseDouble) == PixelLine;
      assert all[1..][1..] == ks by {
        assert ([header, pixelLine] + lines)[2..] == lines;
      }
      assert EffFold(Ok(st), all) == EffFold(Ok(st.(detector := d)), all[1..]);
      assert EffFold(Ok(st.(detector := d)), all[1..]) == EffFold(Ok(st2), all[1..][1..]);
    }
    assert AllValues(ks);
    EffValuesAdvance(st2, ks);
    forall j | 0 <= j < |lines|
      ensures EffKey(d, j) in EffFold(Ok(st2), ks).value.effs
      && EffFold(Ok(st2), ks).value.effs[EffKey(d, j)] == EffValue(lines[j], parseDouble)
    {
      EffValuesRecord(st2, ks, j);
      assert st2.detector == d && st2.index + j == j;
      assert ks[j] == ClassifyEff(lines[j], parseDouble);
    }
  }

  // ---------------------------------------------------------------------
  // buildPixels
  // ---------------------------------------------------------------------

  /**
   * One line of the geometry file. Only a line starting with a space places
   * a detector: trimmed and split on whitespace, its second field names the
   * detector and fields 5 to 7, less 500, 500 and 180, give its centre.
   * A short line or a field that is not a number makes buildPixels throw.
   */
  function GeometryLine(line: string, parseDouble: string -> Option<real>): (r: Result<Option<(string, Vec)>>)
    ensures r == Ok(None) <==> !StartsWith(line, " ")
    ensures StartsWith(line, " ") ==>
      var f := SplitWs(Trim(line));
      r.Err? <==> |f| < 7 || parseDouble(f[4]).None? || parseDouble(f[5]).None? || parseDouble(f[6]).None?
    ensures r.Ok? && r.value.Some? ==>
      var f := SplitWs(Trim(line));
      |f| >= 7 && r.value.value.0 == f[1]
      && parseDouble(f[4]) == Some(r.value.value.1.x + 500.0)
      && parseDouble(f[5]) == Some(r.value.value.1.y + 500.0)
      && parseDouble(f[6]) == Some(r.value.value.1.z + 180.0)
  {
    if !StartsWith(line, " ") then Ok(None)
    else
      var f := SplitWs(Trim(line));
      if |f| < 7 || parseDouble(f[4]).None? || parseDouble(f[5]).None? || parseDouble(f[6]).None? then
        Err("Bad geometry line: " + line)
      else
        Ok(Some((f[1], Vec(parseDouble(f[4]).value - 500.0, parseDouble(f[5]).value - 500.0, parseDouble(f[6]).value - 180.0))))
  }

  /**
   * The detectors a geometry file places, in file order; an unreadable line
   * or a centre that is not at a layer height (the Pixel constructor's
   * check) is an error.
   */
  function Layout(lines: seq<string>, parseDouble: string -> Option<real>): Result<seq<(string, Vec)>>
  {
    if lines == [] then Ok([])
    else LayoutStep(Layout(lines[..|lines| - 1], parseDouble), GeometryLine(lines[|lines| - 1], parseDouble))
  }

  /** One more geometry line read into the detectors placed so far. */
  function LayoutStep(placed: Result<seq<(string, Vec)>>, line: Result<Option<(string, Vec)>>): Result<seq<(string, Vec)>>
  {
    match placed
    case Err(msg) => Err(msg)
    case Ok(ds) =>
      match line
      case Err(msg) => Err(msg)
      case Ok(None) => Ok(ds)
      case Ok(Some(d)) => if IsLayerHeight(d.1.z) then Ok(ds + [d]) else Err("Could not find layer")
  }

  lemma LayoutSnoc(lines: seq<string>, i: nat, parseDouble: string -> Option<real>)
    requires i < |lines|
    ensures Layout(lines[..i + 1], parseDouble) == LayoutStep(Layout(lines[..i], parseDouble), GeometryLine(lines[i], parseDouble))
  {
    assert lines[..i + 1][..i] == lines[..i];
  }

  /** A geometry line that buildPixels reads without throwing. */
  predicate LineReads(line: string, parseDouble: string -> Option<real>)
  {
    match GeometryLine(line, parseDouble)
    case Err(_) => false
    case Ok(None) => true
    case Ok(Some(d)) => IsLayerHeight(d.1.z)
  }

  /** The detectors of the space-led lines, front to back. */
  function Placements(lines: seq<string>, parseDouble: string -> Option<real>): seq<(string, Vec)>
  {
    if lines == [] then []
    else
      (match GeometryLine(lines[0], parseDouble) case Ok(Some(d)) => [d] case _ => [])
      + Placements(lines[1..], parseDouble)
  }

  lemma {:induction false} PlacementsSnoc(lines: seq<string>, line: string, parseDouble: string -> Option<real>)
    ensures Placements(lines + [line], parseDouble)
      == Placements(lines, parseDouble) + Placements([line], parseDouble)
    decreases |lines|
  {
    if lines != [] {
      assert (lines + [line])[1..] == lines[1..] + [line];
      PlacementsSnoc(lines[1..], line, parseDouble);
    }
  }

  /**
   * The geometry file reads exactly when every line reads, and then it
   * places, in file order, the detector of every space-led line.
   */
  lemma {:induction false} LayoutPlaces(lines: seq<string>, parseDouble: string -> Option<real>)
    ensures Layout(lines, parseDouble).Ok? <==> forall i :: 0 <= i < |lines| ==> LineReads(lines[i], parseDouble)
    ensures Layout(lines, parseDouble).Ok? ==> Layout(lines, parseDouble).value == Placements(lines, parseDouble)
    decreases |lines|
  {
    if lines != [] {
      var p := lines[..|lines| - 1];
      var last := lines[|lines| - 1];
      assert lines == p + [last];
      LayoutPlaces(p, parseDouble);
      PlacementsSnoc(p, last, parseDouble);
      assert [last][1..] == [];
      if forall i :: 0 <= i < |lines| ==> LineReads(lines[i], parseDouble) {
        forall i | 0 <= i < |p| ensures LineReads(p[i], parseDouble) {
          assert p[i] == lines[i];
        }
      }
    }
  }

  lemma {:induction false} LayoutErrStays(lines: seq<string>, n: nat, parseDouble: string -> Option<real>)
    requires n <= |lines|
    requires Layout(lines[..n], parseDouble).Err?
    ensures Layout(lines, parseDouble).Err?
    decreases |lines| - n
  {
    if n < |lines| {
      assert lines[..n + 1][..n] == lines[..n];
      LayoutErrStays(lines, n + 1, parseDouble);
    } else {
      assert lines[..n] == lines;
    }
  }

  /** The name of each of a detector's first n pixels, mapped to the pixel's index. */
  function Slots(detector: string, n: nat): map<string, nat>
  {
    if n == 0 then map[] else Slots(detector, n - 1)[PixelName(detector, n - 1) := n - 1]
  }

  lemma {:induction false} SlotsFacts(detector: string, n: nat)
    ensures forall i :: 0 <= i < n ==> PixelName(detector, i) in Slots(detector, n) && Slots(detector, n)[PixelName(detector, i)] == i
    ensures forall k :: k in Slots(detector, n) ==> Slots(detector, n)[k] < n && k == PixelName(detector, Slots(detector, n)[k])
  {
    if n > 0 {
      SlotsFacts(detector, n - 1);
      forall i | 0 <= i < n - 1 ensures PixelName(detector, i) != PixelName(detector, n - 1) {
        if PixelName(detector, i) == PixelName(detector, n - 1) {
          PixelNameInjective(detector, i, n - 1);
        }
      }
    }
  }

  /**
   * The owner of each pixel name once the detectors `ds` are merged in
   * order: the detector's name, its centre, and the pixel's index in it.
   * Each detector's map is added with `putAll`, so a later detector's
   * pixels replace an earlier one's under the same name.
   */
  function Owners(ds: seq<(string, Vec)>): map<string, (string, Vec, nat)>
  {
    if ds == [] then map[]
    else
      var d := ds[|ds| - 1];
      var slots := Slots(d.0, PIXELS_PER_DETECTOR);
      Owners(ds[..|ds| - 1]) + map k | k in slots :: (d.0, d.1, slots[k])
  }

  /** The merged map names exactly the pixels of the detectors placed. */
  lemma {:induction false} OwnersKeys(ds: seq<(string, Vec)>)
    ensures forall k :: k in Owners(ds) <==>
      exists j, i :: 0 <= j < |ds| && 0 <= i < PIXELS_PER_DETECTOR && k == PixelName(ds[j].0, i)
    decreases |ds|
  {
    if ds != [] {
      var p := ds[..|ds| - 1];
      var d := ds[|ds| - 1];
      OwnersKeys(p);
      SlotsFacts(d.0, PIXELS_PER_DETECTOR);
      forall k | k in Owners(ds)
        ensures exists j, i :: 0 <= j < |ds| && 0 <= i < PIXELS_PER_DETECTOR && k == PixelName(ds[j].0, i)
      {
        if k in Owners(p) {
          var j, i :| 0 <= j < |p| && 0 <= i < PIXELS_PER_DETECTOR && k == PixelName(p[j].0, i);
          assert ds[j] == p[j];
        } else {
          assert k == PixelName(ds[|ds| - 1].0, Slots(d.0, PIXELS_PER_DETECTOR)[k]);
        }
      }
      forall k | exists j, i :: 0 <= j < |ds| && 0 <= i < PIXELS_PER_DETECTOR && k == PixelName(ds[j].0, i)
        ensures k in Owners(ds)
      {
        var j, i :| 0 <= j < |ds| && 0 <= i < PIXELS_PER_DETECTOR && k == PixelName(ds[j].0, i);
        if j < |p| {
          assert ds[j] == p[j];
        }
      }
    }
  }

  /**
   * Pixel i of detector j belongs to that detector in the merged map unless
   * a later detector names a pixel the same way.
   */
  lemma {:induction false} OwnersLast(ds: seq<(string, Vec)>, j: nat, i: nat)
    requires j < |ds| && i < PIXELS_PER_DETECTOR
    requires forall l, i' :: j < l < |ds| && 0 <= i' < PIXELS_PER_DETECTOR ==> PixelName(ds[l].0, i') != PixelName(ds[j].0, i)
    ensures PixelName(ds[j].0, i) in Owners(ds)
    ensures Owners(ds)[PixelName(ds[j].0, i)] == (ds[j].0, ds[j].1, i)
    decreases |ds|
  {
    var p := ds[..|ds| - 1];
    var d := ds[|ds| - 1];
    SlotsFacts(d.0, PIXELS_PER_DETECTOR);
    if j < |p| {
      assert p[j] == ds[j];
      forall l, i' | j < l < |p| && 0 <= i' < PIXELS_PER_DETECTOR ensures PixelName(p[l].0, i') != PixelName(p[j].0, i) {
        assert p[l] == ds[l];
      }
      OwnersLast(p, j, i);
    }
  }

  /** Every name of the merged map is the name its owner gives that pixel. */
  lemma {:induction false} OwnersNames(ds: seq<(string, Vec)>)
    ensures forall k :: k in Owners(ds) ==>
      Owners(ds)[k].2 < PIXELS_PER_DETECTOR && k == PixelName(Owners(ds)[k].0, Owners(ds)[k].2)
    decreases |ds|
  {
    if ds != [] {
      OwnersNames(ds[..|ds| - 1]);
      SlotsFacts(ds[|ds| - 1].0, PIXELS_PER_DETECTOR);
    }
  }

  /**
   * Each pixel of the map is stored under its own name and sits where its
   * owner's buildDetector put it (buildPixels' loop invariant).
   */
  ghost predicate PixelsOf(pixels: map<string, Pixel>, ds: seq<(string, Vec)>)
  {
    pixels.Keys == Owners(ds).Keys
    && forall k :: k in pixels ==>
      pixels[k].name == k && Owners(ds)[k].2 < PIXELS_PER_DETECTOR
      && Shaped(pixels[k], Owners(ds)[k].1, Owners(ds)[k].2)
  }

  /** With its name, a pixel of the map is the pixel its owner's buildDetector made. */
  lemma PixelsOfPlaced(pixels: map<string, Pixel>, ds: seq<(string, Vec)>)
    requires PixelsOf(pixels, ds)
    ensures forall k :: k in pixels ==>
      Owners(ds)[k].2 < PIXELS_PER_DETECTOR && Placed(pixels[k], Owners(ds)[k].0, Owners(ds)[k].1, Owners(ds)[k].2)
  {
    OwnersNames(ds);
  }

  /** Adding one detector: its pixels take their names, every other name keeps its owner. */
  lemma OwnersAppend(ds: seq<(string, Vec)>, d: (string, Vec))
    ensures forall k :: k in Owners(ds + [d]) <==> k in Owners(ds) || k in Slots(d.0, PIXELS_PER_DETECTOR)
    ensures forall k :: k in Slots(d.0, PIXELS_PER_DETECTOR) ==>
      Owners(ds + [d])[k] == (d.0, d.1, Slots(d.0, PIXELS_PER_DETECTOR)[k])
    ensures forall k :: k in Owners(ds) && k !in Slots(d.0, PIXELS_PER_DETECTOR) ==> Owners(ds + [d])[k] == Owners(ds)[k]
  {
    assert (ds + [d])[..|ds|] == ds;
  }

  /** buildDetector's map, seen through Slots: the pixel under each name is the one of that index. */
  lemma DetectorSlots(detector: map<string, Pixel>, d: (string, Vec))
    requires detector.Keys == PixelNames(d.0, PIXELS_PER_DETECTOR)
    requires forall i :: 0 <= i < PIXELS_PER_DETECTOR ==>
      PixelName(d.0, i) in detector && Placed(detector[PixelName(d.0, i)], d.0, d.1, i)
    ensures detector.Keys == Slots(d.0, PIXELS_PER_DETECTOR).Keys
    ensures forall k :: k in detector ==>
      Slots(d.0, PIXELS_PER_DETECTOR)[k] < PIXELS_PER_DETECTOR
      && Shaped(detector[k], d.1, Slots(d.0, PIXELS_PER_DETECTOR)[k])
  {
    var slots := Slots(d.0, PIXELS_PER_DETECTOR);
    SlotsFacts(d.0, PIXELS_PER_DETECTOR);
    forall k | k in detector ensures k in slots {
      var i :| 0 <= i < PIXELS_PER_DETECTOR && k == PixelName(d.0, i);
    }
    forall k | k in slots ensures k in detector && Shaped(detector[k], d.1, slots[k]) {
      assert k == PixelName(d.0, slots[k]);
    }
  }

  /** `map.putAll(buildDetector(...))` keeps PixelsOf. */
  lemma PixelsOfPutAll(pixels: map<string, Pixel>, ds: seq<(string, Vec)>, detector: map<string, Pixel>, d: (string, Vec))
    requires PixelsOf(pixels, ds)
    requires detector.Keys == Slots(d.0, PIXELS_PER_DETECTOR).Keys
    requires forall k :: k in detector ==>
      detector[k].name == k && Slots(d.0, PIXELS_PER_DETECTOR)[k] < PIXELS_PER_DETECTOR
      && Shaped(detector[k], d.1, Slots(d.0, PIXELS_PER_DETECTOR)[k])
    ensures PixelsOf(pixels + detector, ds + [d])
  {
    OwnersAppend(ds, d);
    var merged, owners := pixels + detector, Owners(ds + [d]);
    assert merged.Keys == owners.Keys;
    forall k | k in merged
      ensures merged[k].name == k && owners[k].2 < PIXELS_PER_DETECTOR
      && Shaped(merged[k], owners[k].1, owners[k].2)
    {
      if k in detector {
        assert owners[k] == (d.0, d.1, Slots(d.0, PIXELS_PER_DETECTOR)[k]);
      } else {
        assert owners[k] == Owners(ds)[k];
      }
    }
  }

  /**
   * The efficiency step of buildPixels: each entry of the table whose key
   * names a pixel of the map sets that pixel's efficiency; other entries
   * are ignored, and pixels without an entry keep theirs. Every pixel is
   * stored under its own name, so no two keys share a pixel.
   */
  method ApplyEfficiencies(pixels: map<string, Pixel>, effs: map<string, real>)
    requires forall k :: k in pixels ==> pixels[k].name == k
    modifies pixels.Values
    ensures forall k :: k in pixels ==>
      pixels[k].efficiency == if k in effs then effs[k] else old(pixels[k].efficiency)
  {
    var todo := effs.Keys;
    while todo != {}
      invariant todo <= effs.Keys
      invariant forall k :: k in pixels ==>
        pixels[k].efficiency == if k in effs && k !in todo then effs[k] else old(pixels[k].efficiency)
      decreases |todo|
    {
      var key :| key in todo;
      if key in pixels {
        pixels[key].efficiency := effs[key];
      }
      todo := todo - {key};
    }
  }

  /**
   * `buildPixels`: every detector the geometry file places, 16 pixels each,
   * merged with `putAll` (a later detector of the same name replaces an
   * earlier one's pixels), then patched with the efficiency table.
   */
  method BuildPixels(geometry: seq<string>, effLines: seq<string>, parseDouble: string -> Option<real>)
    returns (r: Result<map<string, Pixel>>)
    ensures r.Ok? <==> Layout(geometry, parseDouble).Ok? && EffRun(Ok(EffStart), effLines, parseDouble).Ok?
    ensures r.Ok? ==>
      var owners := Owners(Layout(geometry, parseDouble).value);
      r.value.Keys == owners.Keys
      && forall k :: k in r.value ==>
        r.value[k].name == k && owners[k].2 < PIXELS_PER_DETECTOR
        && Placed(r.value[k], owners[k].0, owners[k].1, owners[k].2)
    ensures r.Ok? ==> forall k :: k in r.value ==> fresh(r.value[k])
    ensures r.Ok? ==> forall k :: k in r.value ==>
      r.value[k].efficiency ==
        var effs := EffRun(Ok(EffStart), effLines, parseDouble).value.effs;
        if k in effs then effs[k] else DEFAULT_EFFICIENCY
  {
    var pixels: map<string, Pixel> := map[];
    ghost var placed: seq<(string, Vec)> := [];
    for i := 0 to |geometry|
      invariant Layout(geometry[..i], parseDouble) == Ok(placed)
      invariant PixelsOf(pixels, placed)
      invariant forall k :: k in pixels ==> fresh(pixels[k]) && pixels[k].efficiency == DEFAULT_EFFICIENCY
    {
      LayoutSnoc(geometry, i, parseDouble);
      var line := GeometryLine(geometry[i], parseDouble);
      if line.Err? {
        LayoutErrStays(geometry, i + 1, parseDouble);
        return Err(line.msg);
      }
      if line.value.Some? {
        var (name, pos) := line.value.value;
        var detector := BuildDetector(name, pos);
        if detector.Err? {
          LayoutErrStays(geometry, i + 1, parseDouble);
          return Err(detector.msg);
        }
        DetectorSlots(detector.value, (name, pos));
        PixelsOfPutAll(pixels, placed, detector.value, (name, pos));
        forall k | k in pixels + detector.value
          ensures fresh((pixels + detector.value)[k]) && (pixels + detector.value)[k].efficiency == DEFAULT_EFFICIENCY
        {
          if k !in detector.value {
            assert (pixels + detector.value)[k] == pixels[k];
          }
        }
        pixels := pixels + detector.value;
        placed := placed + [(name, pos)];
      }
    }
    assert geometry[..|geometry|] == geometry;
    var effs := ReadEffs(effLines, parseDouble);
    if effs.Err? {
      return Err(effs.msg);
    }
    PixelsOfPlaced(pixels, placed);
    ApplyEfficiencies(pixels, effs.value);
    return Ok(pixels);
  }
}
