/**
 * Detection efficiency per direction and the efficiency scan over a grid of
 * directions, with its text progress bar (Efficiency.kt).
 */
module Efficiency {
  import opened Wrappers
  import opened Text
  import opened SeqUtil
  import opened Geometry
  import opened Tracks
  import opened Events
  import opened Simulation

  // ---------------------------------------------------------------------
  // simulateSingleDirection
  // ---------------------------------------------------------------------

  /** The identities whose counters pass `keep`. */
  function Selected(tallies: map<string, Tally>, keep: Tally -> bool): (r: set<string>)
    ensures r <= tallies.Keys
  {
    set id | id in tallies && keep(tallies[id])
  }

  /** The count of a counter, 0 for an identity without one. */
  function CountOf(tallies: map<string, Tally>): string -> int
  {
    id => if id in tallies then tallies[id].count else 0
  }

  /** `filter(predicate).sumBy(Counter::count)`. */
  ghost function SelectedCount(tallies: map<string, Tally>, keep: Tally -> bool): int
  {
    SumOver(Selected(tallies, keep), CountOf(tallies))
  }

  /**
   * The efficiency of a direction: the selected count over the number of
   * simulated events. With no events the source divides 0.0 by 0 and
   * gets NaN, here None.
   */
  ghost function DirectionEfficiency(events: seq<Event>, key: Event -> string, directionOf: Track -> Vec,
                                     keep: Tally -> bool): Option<real>
  {
    if |events| == 0 then None
    else Some(SelectedCount(TallyOf(events, key, directionOf), keep) as real / |events| as real)
  }

  /** The sum of the counts of the counters that pass `keep`. */
  method SumSelected(counters: map<string, Counter>, keep: Tally -> bool) returns (sum: int)
    ensures sum == SelectedCount(Snapshot(counters), keep)
  {
    ghost var tallies := Snapshot(counters);
    ghost var f := CountOf(tallies);
    sum := 0;
    var rest := counters.Keys;
    ghost var done: set<string> := {};
    while rest != {}
      invariant rest + done == counters.Keys && rest !! done
      invariant sum == SumOver(done * Selected(tallies, keep), f)
      decreases rest
    {
      var id :| id in rest;
      var c := counters[id];
      var tally := Tally(c.id, c.multiplicity, c.count, c.sum);
      assert tally == tallies[id];
      ghost var used := done * Selected(tallies, keep);
      if keep(tally) {
        sum := sum + c.count;
        SumOverAdd(used, f, id);
        assert (done + {id}) * Selected(tallies, keep) == used + {id};
      } else {
        assert (done + {id}) * Selected(tallies, keep) == used;
      }
      rest := rest - {id};
      done := done + {id};
    }
    assert done * Selected(tallies, keep) == Selected(tallies, keep);
  }

  /**
   * `simulateSingleDirection`: the share of `numCalls` simulated events whose
   * counter passes `keep`. The events are those the fixed-angle
   * generator produced for the direction, so numCalls is their number.
   */
  method SimulateSingleDirection(events: seq<Event>, key: Event -> string, directionOf: Track -> Vec,
                                 keep: Tally -> bool) returns (r: Option<real>)
    ensures r == DirectionEfficiency(events, key, directionOf, keep)
  {
    var counters := SimulateN(events, key, directionOf);
    var sum := SumSelected(counters, keep);
    if |events| == 0 {
      return None;
    }
    return Some(sum as real / |events| as real);
  }

  /** Every event of the selected identities is counted once: at most all of them, all with the default predicate. */
  lemma SelectedCountBounds(events: seq<Event>, key: Event -> string, directionOf: Track -> Vec, keep: Tally -> bool)
    ensures 0 <= SelectedCount(TallyOf(events, key, directionOf), keep) <= |events|
    ensures (forall t :: keep(t)) ==> SelectedCount(TallyOf(events, key, directionOf), keep) == |events|
  {
    var tallies := TallyOf(events, key, directionOf);
    var f := CountOf(tallies);
    var counts := id => CountKey(events, key, id);
    CountsSumToTotal(events, key);
    SumOverExt(Keys(events, key), f, counts);
    SumOverSubset(Keys(events, key), Selected(tallies, keep), f);
    SumOverNonNegative(Selected(tallies, keep), f);
    if forall t :: keep(t) {
      assert Selected(tallies, keep) == Keys(events, key);
    }
  }

  /**
   * The efficiency lies in [0, 1]; with the default predicate `{ true }`
   * it is exactly 1.
   */
  lemma EfficiencyBounds(events: seq<Event>, key: Event -> string, directionOf: Track -> Vec, keep: Tally -> bool)
    requires |events| > 0
    ensures DirectionEfficiency(events, key, directionOf, keep).Some?
    ensures 0.0 <= DirectionEfficiency(events, key, directionOf, keep).value <= 1.0
    ensures (forall t :: keep(t)) ==> DirectionEfficiency(events, key, directionOf, keep).value == 1.0
  {
    SelectedCountBounds(events, key, directionOf, keep);
    Ratio(SelectedCount(TallyOf(events, key, directionOf), keep) as real, |events| as real);
  }

  lemma Ratio(s: real, n: real)
    requires 0.0 <= s <= n && n > 0.0
    ensures 0.0 <= s / n <= 1.0
    ensures s == n ==> s / n == 1.0
  {
    assert s / n * n == s;
  }

  // ---------------------------------------------------------------------
  // updateProgress
  // ---------------------------------------------------------------------

  /** The progress bar's width in characters. */
  const PROGRESS_WIDTH: int := 50

  /** Kotlin's Double.toInt: rounding toward zero, saturating at the Int range. */
  function DoubleToInt(x: real): (r: int)
    ensures INT_MIN <= r <= INT_MAX
    ensures 0.0 <= x < INT_MAX as real ==> r as real <= x < r as real + 1.0
    ensures INT_MIN as real < x <= 0.0 ==> r as real - 1.0 < x <= r as real
  {
    var t := if x >= 0.0 then x.Floor else -((-x).Floor);
    if t < INT_MIN then INT_MIN else if t > INT_MAX then INT_MAX else t
  }

  /** How many '=' the first loop of updateProgress prints: every i from 0 to (p * 50).toInt(). */
  function Filled(p: real): nat
  {
    var k := DoubleToInt(p * PROGRESS_WIDTH as real);
    if k < 0 then 0 else k + 1
  }

  /** The text updateProgress prints for fraction `p`. */
  function ProgressBar(p: real): string
  {
    var f := Filled(p);
    "\r[" + Repeat('=', f) + Repeat(' ', if f < PROGRESS_WIDTH then PROGRESS_WIDTH - f else 0) + "]"
  }

  /**
   * `updateProgress`, returning what it prints. When (p * 50).toInt() is
   * Int.MAX_VALUE the source's first loop never ends (i wraps around), so
   * that fraction is excluded.
   */
  method UpdateProgress(p: real) returns (out: string)
    requires DoubleToInt(p * PROGRESS_WIDTH as real) < INT_MAX
    ensures out == ProgressBar(p)
  {
    var k := DoubleToInt(p * PROGRESS_WIDTH as real);
    out := "\r[";
    var i := 0;
    while i <= k
      invariant 0 <= i <= Filled(p)
      invariant out == "\r[" + Repeat('=', i)
    {
      out := out + "=";
      i := i + 1;
      assert Repeat('=', i) == Repeat('=', i - 1) + "=";
    }
    ghost var f := i;
    assert f == Filled(p);
    while i < PROGRESS_WIDTH
      invariant f <= i && (f < PROGRESS_WIDTH ==> i <= PROGRESS_WIDTH) && (f >= PROGRESS_WIDTH ==> i == f)
      invariant out == "\r[" + Repeat('=', f) + Repeat(' ', i - f)
    {
      out := out + " ";
      i := i + 1;
      assert Repeat(' ', i - f) == Repeat(' ', i - 1 - f) + " ";
    }
    out := out + "]";
  }

  /**
   * For a fraction in [0, 1) the bar holds floor(50 p) + 1 '=' padded with
   * spaces to exactly 50 characters between the brackets.
   */
  lemma ProgressBarPartial(p: real)
    requires 0.0 <= p < 1.0
    ensures Filled(p) == (p * 50.0).Floor + 1
    ensures 1 <= Filled(p) <= PROGRESS_WIDTH
    ensures |ProgressBar(p)| == PROGRESS_WIDTH + 3
  {
    var x := p * 50.0;
    assert x < 50.0;
    assert DoubleToInt(x) == x.Floor;
  }

  /** At p = 1.0 the bar holds 51 '=' and no space: one more than its width. */
  lemma ProgressBarComplete()
    ensures Filled(1.0) == PROGRESS_WIDTH + 1
    ensures ProgressBar(1.0) == "\r[" + Repeat('=', PROGRESS_WIDTH + 1) + "]"
  {
    assert DoubleToInt(50.0) == 50;
    assert Repeat(' ', 0) == [];
  }

  /** The bar never shrinks as the fraction grows. */
  lemma FilledMonotone(p: real, q: real)
    requires p <= q
    ensures Filled(p) <= Filled(q)
  {
    var x := p * 50.0;
    var y := q * 50.0;
    assert x <= y;
    assert x.Floor <= y.Floor;
    assert (-y).Floor <= (-x).Floor;
  }

  // ---------------------------------------------------------------------
  // generateEfficiency
  // ---------------------------------------------------------------------

  /** One output line of generateEfficiency: the grid point in degrees and its efficiency. */
  datatype EfficiencyRow = EfficiencyRow(theta: int, phi: int, efficiency: Option<real>)

  /** The number of theta values (0, 10, ..., 80) and of phi values (0, 10, ..., 360). */
  const THETA_STEPS: nat := 9
  const PHI_STEPS: nat := 37

  /** The grid point of output line k: theta in the outer loop, phi in the inner. */
  function GridPoint(k: nat): (int, int)
  {
    (10 * (k / PHI_STEPS), 10 * (k % PHI_STEPS))
  }

  /** The polar angle simulated for grid theta: elevation 90 - theta, in radians. */
  function GridTheta(theta: int): real
  {
    PI / 180.0 * (90 - theta) as real
  }

  /** The azimuth simulated for grid phi: phi - 180, in radians. */
  function GridPhi(phi: int): real
  {
    PI / 180.0 * (phi - 180) as real
  }

  /** The predicate generateEfficiency counts with: at least three pixels hit. */
  predicate MultiHit(t: Tally)
  {
    t.multiplicity >= 3
  }

  /** What output line k should be, given the events simulated for each direction. */
  ghost function GridRow(k: nat, eventsFor: (real, real) -> seq<Event>, key: Event -> string,
                         directionOf: Track -> Vec): EfficiencyRow
  {
    var (theta, phi) := GridPoint(k);
    EfficiencyRow(theta, phi, DirectionEfficiency(eventsFor(GridTheta(theta), GridPhi(phi)), key, directionOf, MultiHit))
  }

  /** Every output line generateEfficiency should print, in order. */
  ghost function GridRows(eventsFor: (real, real) -> seq<Event>, key: Event -> string, directionOf: Track -> Vec)
    : (r: seq<EfficiencyRow>)
    ensures |r| == THETA_STEPS * PHI_STEPS
  {
    seq(THETA_STEPS * PHI_STEPS, k requires 0 <= k => GridRow(k, eventsFor, key, directionOf))
  }

  /** The fraction reported after the row of theta index a. */
  function Progress(a: nat): real
  {
    (10 * a + 10) as real / 90.0
  }

  lemma GridPointOf(a: nat, b: nat)
    requires b < PHI_STEPS
    ensures GridPoint(PHI_STEPS * a + b) == (10 * a, 10 * b)
  {
  }

  /**
   * Every theta in {0, 10, ..., 80} and phi in {0, 10, ..., 360}, both ends
   * of phi included, is the grid point of one of the 9 x 37 output lines.
   */
  lemma GridCovers(theta: int, phi: int)
    requires 0 <= theta <= 89 && theta % 10 == 0
    requires 0 <= phi <= 360 && phi % 10 == 0
    ensures PHI_STEPS * (theta / 10) + phi / 10 < THETA_STEPS * PHI_STEPS
    ensures GridPoint(PHI_STEPS * (theta / 10) + phi / 10) == (theta, phi)
  {
    GridPointOf(theta / 10, phi / 10);
  }

  /** Output line PHI_STEPS * a + b is the row of theta 10a and phi 10b. */
  lemma GridRowAt(a: nat, b: nat, eventsFor: (real, real) -> seq<Event>, key: Event -> string, directionOf: Track -> Vec)
    requires a < THETA_STEPS && b < PHI_STEPS
    ensures PHI_STEPS * a + b < THETA_STEPS * PHI_STEPS
    ensures GridRows(eventsFor, key, directionOf)[PHI_STEPS * a + b]
      == EfficiencyRow(10 * a, 10 * b,
           DirectionEfficiency(eventsFor(GridTheta(10 * a), GridPhi(10 * b)), key, directionOf, MultiHit))
  {
    GridPointOf(a, b);
  }

  lemma ProgressBounded(a: nat)
    requires a < THETA_STEPS
    ensures 0.0 < Progress(a) <= 1.0
    ensures DoubleToInt(Progress(a) * PROGRESS_WIDTH as real) < INT_MAX
  {
  }

  /**
   * `generateEfficiency`: for theta = 0, 10, ..., 80 and, inside, phi = 0,
   * 10, ..., 360, the efficiency of the direction counted over events with
   * at least three hits; after each theta the progress bar advances to
   * (theta + 10) / 90, after an empty bar at the start. The rows are what
   * the source prints to its output stream, the bars what it prints to the
   * console; the events of each direction are a parameter.
   */
  method GenerateEfficiency(eventsFor: (real, real) -> seq<Event>, key: Event -> string, directionOf: Track -> Vec)
    returns (rows: seq<EfficiencyRow>, bars: seq<string>)
    ensures rows == GridRows(eventsFor, key, directionOf)
    ensures |bars| == THETA_STEPS + 1 && bars[0] == ProgressBar(0.0)
    ensures forall a :: 0 <= a < THETA_STEPS ==> bars[a + 1] == ProgressBar(Progress(a))
  {
    ghost var expected := GridRows(eventsFor, key, directionOf);
    rows := [];
    var bar := UpdateProgress(0.0);
    bars := [bar];
    for a := 0 to THETA_STEPS
      invariant rows == expected[..PHI_STEPS * a]
      invariant |bars| == a + 1 && bars[0] == ProgressBar(0.0)
      invariant forall i :: 0 <= i < a ==> bars[i + 1] == ProgressBar(Progress(i))
    {
      var line := ScanTheta(a, eventsFor, key, directionOf);
      GridRowsStep(expected, a);
      rows := rows + line;
      ProgressBounded(a);
      bar := UpdateProgress(Progress(a));
      bars := bars + [bar];
    }
  }

  lemma GridRowsStep(expected: seq<EfficiencyRow>, a: nat)
    requires |expected| == THETA_STEPS * PHI_STEPS && a < THETA_STEPS
    ensures PHI_STEPS * a + PHI_STEPS == PHI_STEPS * (a + 1) <= |expected|
    ensures expected[..PHI_STEPS * (a + 1)] == expected[..PHI_STEPS * a] + expected[PHI_STEPS * a..PHI_STEPS * (a + 1)]
  {
  }

  /**
   * The inner loop of generateEfficiency for theta = 10a: the rows of phi
   * = 0, 10, ..., 360.
   */
  method ScanTheta(a: nat, eventsFor: (real, real) -> seq<Event>, key: Event -> string, directionOf: Track -> Vec)
    returns (line: seq<EfficiencyRow>)
    requires a < THETA_STEPS
    ensures PHI_STEPS * (a + 1) <= THETA_STEPS * PHI_STEPS
    ensures line == GridRows(eventsFor, key, directionOf)[PHI_STEPS * a..PHI_STEPS * (a + 1)]
  {
    ghost var expected := GridRows(eventsFor, key, directionOf);
    ghost var start := PHI_STEPS * a;
    var theta := 10 * a;
    line := [];
    for b := 0 to PHI_STEPS
      invariant line == expected[start..start + b]
    {
      var phi := 10 * b;
      var eff := SimulateSingleDirection(eventsFor(GridTheta(theta), GridPhi(phi)), key, directionOf, MultiHit);
      GridRowAt(a, b, eventsFor, key, directionOf);
      assert expected[start..start + b + 1] == expected[start..start + b] + [expected[start + b]];
      line := line + [EfficiencyRow(theta, phi, eff)];
    }
  }
}
