/**
 * Counting simulated events by identity, and the track generators of
 * Simulation.kt as functions of the random draws they consume.
 */
module Simulation {
  import opened Wrappers
  import opened Text
  import opened SeqUtil
  import opened Geometry
  import opened MonitorConstants
  import opened Tracks
  import opened Events

  // ---------------------------------------------------------------------
  // Counter
  // ---------------------------------------------------------------------

  /** The events of one identity: how many, and the sum of their directions. */
  class Counter {
    const id: string
    /** The number of pixels in the identity. */
    const multiplicity: int
    var count: int
    var sum: Vec

    constructor (id: string, multiplicity: int)
      ensures this.id == id && this.multiplicity == multiplicity
      ensures count == 0 && sum == Zero
    {
      this.id := id;
      this.multiplicity := multiplicity;
      count := 0;
      sum := Zero;
    }

    /** `putEvent`: one more event, whose track direction is `direction`. */
    method PutEvent(direction: Vec)
      modifies this
      ensures count == old(count) + 1
      ensures sum == Add(old(sum), direction)
    {
      count := count + 1;
      sum := Add(sum, direction);
    }

    /**
     * `average()`: the sum scaled by 1/count, so that count copies of it add
     * up to the sum. With no events the double arithmetic gives NaN (None).
     */
    function Average(): (r: Option<Vec>)
      reads this
      ensures r.None? <==> count == 0
      ensures r.Some? ==> Scale(count as real, r.value) == sum
    {
      if count == 0 then None
      else
        var k := 1.0 / (count as real);
        ScaleInverse(count as real, sum);
        Some(Scale(k, sum))
    }
  }

  lemma ScaleInverse(c: real, v: Vec)
    requires c != 0.0
    ensures Scale(c, Scale(1.0 / c, v)) == v
  {
    assert c * ((1.0 / c) * v.x) == v.x;
    assert c * ((1.0 / c) * v.y) == v.y;
    assert c * ((1.0 / c) * v.z) == v.z;
  }

  // ---------------------------------------------------------------------
  // simulateN
  // ---------------------------------------------------------------------

  /** The number of events with key `id`. */
  function CountKey(events: seq<Event>, key: Event -> string, id: string): (r: nat)
    ensures r <= |events|
  {
    if events == [] then 0
    else CountKey(events[..|events| - 1], key, id) + (if key(events[|events| - 1]) == id then 1 else 0)
  }

  /** The sum of the directions of the events with key `id`. */
  function SumKey(events: seq<Event>, key: Event -> string, id: string, directionOf: Track -> Vec): Vec
  {
    if events == [] then Zero
    else
      var last := events[|events| - 1];
      var s := SumKey(events[..|events| - 1], key, id, directionOf);
      if key(last) == id then Add(s, directionOf(last.track)) else s
  }

  /** The keys that occur among the events. */
  function Keys(events: seq<Event>, key: Event -> string): set<string>
  {
    set i | 0 <= i < |events| :: key(events[i])
  }

  /** The first event with key `id` is at index i. */
  predicate FirstWithKey(events: seq<Event>, key: Event -> string, id: string, i: int)
  {
    0 <= i < |events| && key(events[i]) == id && forall j :: 0 <= j < i ==> key(events[j]) != id
  }

  /** The index of the first event with key `id`, or |events| when there is none. */
  function FirstIndex(events: seq<Event>, key: Event -> string, id: string): (i: nat)
    ensures id in Keys(events, key) ==> FirstWithKey(events, key, id, i)
    ensures id !in Keys(events, key) ==> i == |events|
  {
    if events == [] then 0
    else if key(events[0]) == id then 0
    else
      var i := FirstIndex(events[1..], key, id);
      assert id in Keys(events[1..], key) <==> id in Keys(events, key) by {
        forall j | 0 <= j < |events[1..]| ensures events[1..][j] == events[j + 1] { }
        if id in Keys(events, key) {
          var j :| 0 <= j < |events| && key(events[j]) == id;
          assert key(events[1..][j - 1]) == id;
        }
      }
      i + 1
  }

  /** A counter's fields as a value. */
  datatype Tally = Tally(id: string, multiplicity: int, count: int, sum: Vec)

  /** The current fields of every counter in the map. */
  function Snapshot(counters: map<string, Counter>): (r: map<string, Tally>)
    reads counters.Values
    ensures r.Keys == counters.Keys
  {
    map id | id in counters :: Tally(counters[id].id, counters[id].multiplicity, counters[id].count, counters[id].sum)
  }

  /**
   * What the counters should hold after `events`: one tally per key that
   * occurs, named by the key, with the number of hits of the key's first
   * event as multiplicity, the number of events with the key and the sum
   * of their directions.
   */
  function TallyOf(events: seq<Event>, key: Event -> string, directionOf: Track -> Vec): (r: map<string, Tally>)
    ensures r.Keys == Keys(events, key)
  {
    map id | id in Keys(events, key) ::
      Tally(id, |events[FirstIndex(events, key, id)].hits|, CountKey(events, key, id), SumKey(events, key, id, directionOf))
  }

  /** `putEvent` on the counter of `id`, first creating it with multiplicity `hits` if absent. */
  function Record(tallies: map<string, Tally>, id: string, hits: int, direction: Vec): map<string, Tally>
  {
    if id in tallies then
      tallies[id := Tally(tallies[id].id, tallies[id].multiplicity, tallies[id].count + 1, Add(tallies[id].sum, direction))]
    else
      tallies[id := Tally(id, hits, 1, direction)]
  }

  lemma FirstUnique(events: seq<Event>, key: Event -> string, id: string, i: int, j: int)
    requires FirstWithKey(events, key, id, i) && FirstWithKey(events, key, id, j)
    ensures i == j
  {
  }

  /** Extending the events by `events[n]` adds its key and changes only that key's count and sum. */
  lemma KeySnoc(events: seq<Event>, n: nat, key: Event -> string, directionOf: Track -> Vec, x: string)
    requires n < |events|
    ensures Keys(events[..n + 1], key) == Keys(events[..n], key) + {key(events[n])}
    ensures CountKey(events[..n + 1], key, x) == CountKey(events[..n], key, x) + (if key(events[n]) == x then 1 else 0)
    ensures SumKey(events[..n + 1], key, x, directionOf) ==
      if key(events[n]) == x then Add(SumKey(events[..n], key, x, directionOf), directionOf(events[n].track))
      else SumKey(events[..n], key, x, directionOf)
  {
    assert events[..n + 1][..n] == events[..n];
  }

  /** Extending the events keeps the first index of a key that already occurs, and sets that of a new one. */
  lemma FirstSnoc(events: seq<Event>, n: nat, key: Event -> string, x: string)
    requires n < |events|
    requires x in Keys(events[..n + 1], key)
    ensures FirstIndex(events[..n + 1], key, x) ==
      if x in Keys(events[..n], key) then FirstIndex(events[..n], key, x) else n
  {
    var post := events[..n + 1];
    var i := FirstIndex(post, key, x);
    if x in Keys(events[..n], key) {
      var j := FirstIndex(events[..n], key, x);
      assert FirstWithKey(post, key, x, j);
      FirstUnique(post, key, x, i, j);
    } else {
      KeySnoc(events, n, key, t => Zero, x);
      assert FirstWithKey(post, key, x, n);
      FirstUnique(post, key, x, i, n);
    }
  }

  /** Putting `events[n]` into the tallies of the events before it gives the tallies of events[..n+1]. */
  lemma TallySnoc(events: seq<Event>, n: nat, key: Event -> string, directionOf: Track -> Vec)
    requires n < |events|
    ensures TallyOf(events[..n + 1], key, directionOf)
      == Record(TallyOf(events[..n], key, directionOf), key(events[n]), |events[n].hits|, directionOf(events[n].track))
  {
    var pre, post := events[..n], events[..n + 1];
    var lhs := TallyOf(post, key, directionOf);
    var rhs := Record(TallyOf(pre, key, directionOf), key(events[n]), |events[n].hits|, directionOf(events[n].track));
    KeySnoc(events, n, key, directionOf, key(events[n]));
    assert lhs.Keys == rhs.Keys;
    forall x | x in lhs ensures lhs[x] == rhs[x] {
      TallySnocAt(events, n, key, directionOf, x);
    }
  }

  /** TallySnoc at one key. */
  lemma TallySnocAt(events: seq<Event>, n: nat, key: Event -> string, directionOf: Track -> Vec, x: string)
    requires n < |events|
    requires x in Keys(events[..n + 1], key)
    ensures x in Record(TallyOf(events[..n], key, directionOf), key(events[n]), |events[n].hits|, directionOf(events[n].track))
    ensures TallyOf(events[..n + 1], key, directionOf)[x]
      == Record(TallyOf(events[..n], key, directionOf), key(events[n]), |events[n].hits|, directionOf(events[n].track))[x]
  {
    KeySnoc(events, n, key, directionOf, x);
    FirstSnoc(events, n, key, x);
    if x !in Keys(events[..n], key) {
      TallySnocNew(events, n, key, directionOf, x);
    } else {
      TallySnocOld(events, n, key, directionOf, x);
    }
  }

  lemma TallySnocNew(events: seq<Event>, n: nat, key: Event -> string, directionOf: Track -> Vec, x: string)
    requires n < |events|
    requires x in Keys(events[..n + 1], key) && x !in Keys(events[..n], key)
    ensures key(events[n]) == x
    ensures TallyOf(events[..n + 1], key, directionOf)[x] == Tally(x, |events[n].hits|, 1, directionOf(events[n].track))
  {
    var pre, post := events[..n], events[..n + 1];
    KeySnoc(events, n, key, directionOf, x);
    FirstSnoc(events, n, key, x);
    CountKeyAbsent(pre, key, x, directionOf);
    assert post[n] == events[n];
  }

  lemma TallySnocOld(events: seq<Event>, n: nat, key: Event -> string, directionOf: Track -> Vec, x: string)
    requires n < |events|
    requires x in Keys(events[..n], key)
    ensures TallyOf(events[..n + 1], key, directionOf)[x]
      == Record(TallyOf(events[..n], key, directionOf), key(events[n]), |events[n].hits|, directionOf(events[n].track))[x]
  {
    var pre, post := events[..n], events[..n + 1];
    KeySnoc(events, n, key, directionOf, x);
    FirstSnoc(events, n, key, x);
    assert post[FirstIndex(pre, key, x)] == pre[FirstIndex(pre, key, x)];
  }

  /** One iteration of simulateN's loop: `direction` is put into the counter of `id`, created if absent. */
  method PutInto(counters: map<string, Counter>, id: string, hits: int, direction: Vec)
    returns (next: map<string, Counter>)
    requires forall a, b :: a in counters && b in counters && a != b ==> counters[a] != counters[b]
    modifies counters.Values
    ensures Snapshot(next) == Record(old(Snapshot(counters)), id, hits, direction)
    ensures forall a, b :: a in next && b in next && a != b ==> next[a] != next[b]
    ensures forall c :: c in next.Values ==> c in counters.Values || fresh(c)
  {
    next := counters;
    if id !in counters {
      var c := new Counter(id, hits);
      next := counters[id := c];
    }
    var c := next[id];
    c.PutEvent(direction);
  }

  /**
   * `simulateN` over already generated events, run sequentially. The key of
   * an event and a track's direction (Track.getDirection, absent from
   * Track.kt) are parameters. Every key gets its own counter, created by the
   * key's first event with that event's number of hits as multiplicity.
   */
  method SimulateN(events: seq<Event>, key: Event -> string, directionOf: Track -> Vec)
    returns (counters: map<string, Counter>)
    ensures Snapshot(counters) == TallyOf(events, key, directionOf)
    ensures forall a, b :: a in counters && b in counters && a != b ==> counters[a] != counters[b]
    ensures forall c :: c in counters.Values ==> fresh(c)
  {
    counters := map[];
    for n := 0 to |events|
      invariant Snapshot(counters) == TallyOf(events[..n], key, directionOf)
      invariant forall a, b :: a in counters && b in counters && a != b ==> counters[a] != counters[b]
      invariant forall c :: c in counters.Values ==> fresh(c)
    {
      var e := events[n];
      TallySnoc(events, n, key, directionOf);
      counters := PutInto(counters, key(e), |e.hits|, directionOf(e.track));
    }
    assert events[..|events|] == events;
  }

  /** Every key that occurs has at least one event. */
  lemma {:induction false} CountKeyPositive(events: seq<Event>, key: Event -> string, id: string)
    requires id in Keys(events, key)
    ensures CountKey(events, key, id) >= 1
    decreases |events|
  {
    var last := events[|events| - 1];
    if key(last) != id {
      var i :| 0 <= i < |events| && key(events[i]) == id;
      assert events[..|events| - 1][i] == events[i];
      CountKeyPositive(events[..|events| - 1], key, id);
    }
  }

  /** Each event is counted under exactly one key: the counts add up to the number of events. */
  lemma {:induction false} CountsSumToTotal(events: seq<Event>, key: Event -> string)
    ensures SumOver(Keys(events, key), id => CountKey(events, key, id)) == |events|
    decreases |events|
  {
    if events != [] {
      var init := events[..|events| - 1];
      var k0 := key(events[|events| - 1]);
      var f := id => CountKey(events, key, id);
      var g := id => CountKey(init, key, id);
      CountsSumToTotal(init, key);
      assert Keys(events, key) == Keys(init, key) + {k0} by {
        forall id | id in Keys(events, key) ensures id in Keys(init, key) + {k0} {
          var i :| 0 <= i < |events| && key(events[i]) == id;
          if i < |events| - 1 {
            assert init[i] == events[i];
          }
        }
        forall id | id in Keys(init, key) ensures id in Keys(events, key) {
          var i :| 0 <= i < |init| && key(init[i]) == id;
          assert events[i] == init[i];
        }
      }
      var rest := Keys(init, key) - {k0};
      SumOverExt(rest, f, g);
      SumOverRemove(Keys(events, key), f, k0);
      if k0 in Keys(init, key) {
        SumOverRemove(Keys(init, key), g, k0);
      } else {
        assert Keys(init, key) == rest;
        assert CountKey(init, key, k0) == 0 by {
          CountKeyAbsent(init, key, k0, t => Zero);
        }
      }
      assert Keys(events, key) - {k0} == rest;
    }
  }

  /** A key that does not occur has no events and a zero direction sum. */
  lemma {:induction false} CountKeyAbsent(events: seq<Event>, key: Event -> string, id: string, directionOf: Track -> Vec)
    requires id !in Keys(events, key)
    ensures CountKey(events, key, id) == 0
    ensures SumKey(events, key, id, directionOf) == Zero
    decreases |events|
  {
    if events != [] {
      var init := events[..|events| - 1];
      assert key(events[|events| - 1]) != id;
      forall i | 0 <= i < |init| ensures key(init[i]) != id {
        assert init[i] == events[i];
      }
      CountKeyAbsent(init, key, id, directionOf);
    }
  }

  // ---------------------------------------------------------------------
  // Track generators of this file (draws injected)
  // ---------------------------------------------------------------------

  /** The default half-width of the base-point square here: 4 * PIXEL_XY_SIZE. */
  const DEFAULT_MAX: real := 4.0 * PIXEL_XY_SIZE

  /**
   * This file's UniformTrackGenerator: x, y symmetric, phi = (1 - 2u)pi and
   * theta = pi/2 - acos(u), from four successive draws.
   */
  function SimUniformParams(maxX: real, maxY: real, m: MathFns, u1: real, u2: real, u3: real, u4: real): TrackParams
  {
    TrackParams(Symmetric(u1, maxX), Symmetric(u2, maxY), PI / 2.0 - m.acos(u4), Symmetric(u3, PI))
  }

  lemma SimUniformBounds(maxX: real, maxY: real, m: MathFns, u1: real, u2: real, u3: real, u4: real)
    requires IsDraw(u1) && IsDraw(u2) && IsDraw(u3) && IsDraw(u4)
    requires maxX > 0.0 && maxY > 0.0
    ensures -maxX < SimUniformParams(maxX, maxY, m, u1, u2, u3, u4).x <= maxX
    ensures -maxY < SimUniformParams(maxX, maxY, m, u1, u2, u3, u4).y <= maxY
    ensures -PI < SimUniformParams(maxX, maxY, m, u1, u2, u3, u4).phi <= PI
  {
  }

  /** FixedAngleGenerator: random base point, the given angles. */
  function FixedAngleParams(phi: real, theta: real, maxX: real, maxY: real, u1: real, u2: real): TrackParams
  {
    TrackParams(Symmetric(u1, maxX), Symmetric(u2, maxY), theta, phi)
  }

  lemma FixedAngleBounds(phi: real, theta: real, maxX: real, maxY: real, u1: real, u2: real)
    requires IsDraw(u1) && IsDraw(u2) && maxX > 0.0 && maxY > 0.0
    ensures -maxX < FixedAngleParams(phi, theta, maxX, maxY, u1, u2).x <= maxX
    ensures -maxY < FixedAngleParams(phi, theta, maxX, maxY, u1, u2).y <= maxY
    ensures FixedAngleParams(phi, theta, maxX, maxY, u1, u2).theta == theta
    ensures FixedAngleParams(phi, theta, maxX, maxY, u1, u2).phi == phi
  {
  }

  /**
   * The empirical generators (here and in SkyMap.kt): x, y symmetric, the
   * sampled row's angles in degrees (theta as elevation 90 - theta) turned
   * to radians, each jittered by up to half an angle step.
   */
  function EmpiricalParams(maxX: real, maxY: real, angleStep: real, rowTheta: real, rowPhi: real,
                           u1: real, u2: real, u3: real, u4: real): TrackParams
  {
    var half := PI / 180.0 * angleStep / 2.0;
    TrackParams(Symmetric(u1, maxX), Symmetric(u2, maxY),
      PI / 180.0 * (90.0 - rowTheta) + Symmetric(u3, half), PI / 180.0 * rowPhi + Symmetric(u4, half))
  }

  /** The jitter stays within half an angle step of the row's direction on each axis. */
  lemma EmpiricalJitter(maxX: real, maxY: real, angleStep: real, rowTheta: real, rowPhi: real,
                        u1: real, u2: real, u3: real, u4: real)
    requires IsDraw(u1) && IsDraw(u2) && IsDraw(u3) && IsDraw(u4)
    requires maxX > 0.0 && maxY > 0.0 && angleStep > 0.0
    ensures -maxX < EmpiricalParams(maxX, maxY, angleStep, rowTheta, rowPhi, u1, u2, u3, u4).x <= maxX
    ensures -maxY < EmpiricalParams(maxX, maxY, angleStep, rowTheta, rowPhi, u1, u2, u3, u4).y <= maxY
    ensures -(PI / 180.0 * angleStep / 2.0)
      < EmpiricalParams(maxX, maxY, angleStep, rowTheta, rowPhi, u1, u2, u3, u4).theta - PI / 180.0 * (90.0 - rowTheta)
      <= PI / 180.0 * angleStep / 2.0
    ensures -(PI / 180.0 * angleStep / 2.0)
      < EmpiricalParams(maxX, maxY, angleStep, rowTheta, rowPhi, u1, u2, u3, u4).phi - PI / 180.0 * rowPhi
      <= PI / 180.0 * angleStep / 2.0
  {
    var half := PI / 180.0 * angleStep / 2.0;
    assert half > 0.0;
  }

  /**
   * This file's EmpiricalDistributionTrackGenerator: rows read from the
   * table file as (phi, theta, prob); `sample` is the row index the
   * distribution drew.
   */
  function EmpiricalRowParams(rows: seq<Triple>, maxX: real, maxY: real, angleStep: real,
                              u1: real, u2: real, sample: nat, u3: real, u4: real): TrackParams
    requires sample < |rows|
  {
    EmpiricalParams(maxX, maxY, angleStep, rows[sample].second, rows[sample].first, u1, u2, u3, u4)
  }

  /** How many candidates Cos2TrackGenerator tries (i in 0..500). */
  const COS2_ATTEMPTS: nat := 501
  const COS2_FAILURE: string := "Failed to generate theta from distribution"

  /**
   * The acceptance test `u < pow(sin, power) / sin` in double arithmetic:
   * where sin is 0 the quotient is +Infinity for a positive numerator
   * (accepted) and NaN or -Infinity otherwise (rejected).
   */
  predicate Cos2Accepts(m: MathFns, power: real, theta: real, u: real)
  {
    var sin := m.sin(theta);
    if sin == 0.0 then m.pow(sin, power) > 0.0
    else u < m.pow(sin, power) / sin
  }

  /** Candidate i draws theta from draws(3 + 2i) and u from draws(4 + 2i). */
  function Cos2Theta(m: MathFns, draws: nat -> real, i: nat): real { m.acos(draws(3 + 2 * i)) }

  predicate Cos2Accepted(m: MathFns, power: real, draws: nat -> real, i: nat)
  {
    Cos2Accepts(m, power, Cos2Theta(m, draws, i), draws(4 + 2 * i))
  }

  /**
   * Cos2TrackGenerator.generate over the draw stream `draws`: x, y and phi
   * from the first three draws, then up to 501 accept-reject rounds. The
   * first accepted candidate becomes the track; when all are rejected the
   * generator fails. A track whose angles give a zero direction fails too
   * (the library's Line refuses it).
   */
  method Cos2Generate(power: real, maxX: real, maxY: real, m: MathFns, draws: nat -> real)
    returns (r: Result<Track>)
    ensures r.Err? && r.msg == COS2_FAILURE <==> forall i :: 0 <= i < COS2_ATTEMPTS ==> !Cos2Accepted(m, power, draws, i)
    ensures forall k ::
      (0 <= k < COS2_ATTEMPTS && Cos2Accepted(m, power, draws, k)
       && forall j :: 0 <= j < k ==> !Cos2Accepted(m, power, draws, j)) ==>
        var p := TrackParams(Symmetric(draws(0), maxX), Symmetric(draws(1), maxY), Cos2Theta(m, draws, k), Symmetric(draws(2), PI));
        match TrackOf(m, p)
        case Some(t) => r == Ok(t)
        case None => r.Err? && r.msg != COS2_FAILURE
  {
    var x := Symmetric(draws(0), maxX);
    var y := Symmetric(draws(1), maxY);
    var phi := Symmetric(draws(2), PI);
    for i := 0 to COS2_ATTEMPTS
      invariant forall j :: 0 <= j < i ==> !Cos2Accepted(m, power, draws, j)
    {
      var theta := m.acos(draws(3 + 2 * i));
      var u := draws(4 + 2 * i);
      var sin := m.sin(theta);
      var accept := if sin == 0.0 then m.pow(sin, power) > 0.0 else u < m.pow(sin, power) / sin;
      if accept {
        assert Cos2Accepted(m, power, draws, i);
        match MakeTrackAt(m, x, y, theta, phi)
        case Some(t) => return Ok(t);
        case None => return Err("Line points coincide");
      }
    }
    return Err(COS2_FAILURE);
  }

  // ---------------------------------------------------------------------
  // Table output
  // ---------------------------------------------------------------------

  /** The multiplicity filter of the table: a negative filter keeps every row. */
  predicate Keep(multiplicity: int, t: Tally)
  {
    multiplicity < 0 || t.multiplicity == multiplicity
  }

  predicate ByCountDesc(s: seq<Tally>)
  {
    forall i, j :: 0 <= i < j < |s| ==> s[i].count >= s[j].count
  }

  /**
   * Inserts t before the first row whose count is not larger (so before all
   * rows with an equal count): inserting the earlier rows last keeps them first.
   */
  function InsertByCount(t: Tally, s: seq<Tally>): (r: seq<Tally>)
    ensures multiset(r) == multiset(s) + multiset{t}
  {
    if s == [] || s[0].count <= t.count then [t] + s
    else
      assert s == [s[0]] + s[1..];
      [s[0]] + InsertByCount(t, s[1..])
  }

  /** `sortedByDescending { it.count }`, a stable sort. */
  function SortByCountDesc(s: seq<Tally>): (r: seq<Tally>)
    ensures multiset(r) == multiset(s)
  {
    if s == [] then []
    else
      assert s == [s[0]] + s[1..];
      InsertByCount(s[0], SortByCountDesc(s[1..]))
  }

  function FilterKeep(multiplicity: int, s: seq<Tally>): seq<Tally>
  {
    if s == [] then []
    else if Keep(multiplicity, s[0]) then [s[0]] + FilterKeep(multiplicity, s[1..])
    else FilterKeep(multiplicity, s[1..])
  }

  /** The rows runSimulation prints, in order, from the counters' tallies in map order. */
  function Table(rows: seq<Tally>, multiplicity: int): seq<Tally>
  {
    FilterKeep(multiplicity, SortByCountDesc(rows))
  }

  lemma {:induction false} InsertByCountSorted(t: Tally, s: seq<Tally>)
    requires ByCountDesc(s)
    ensures ByCountDesc(InsertByCount(t, s))
    decreases |s|
  {
    if s != [] && s[0].count > t.count {
      InsertByCountSorted(t, s[1..]);
      var r := InsertByCount(t, s[1..]);
      assert multiset(r) == multiset(s[1..]) + multiset{t};
      forall j | 0 <= j < |r| ensures s[0].count >= r[j].count {
        assert r[j] in multiset(r);
        if r[j] != t {
          assert r[j] in multiset(s[1..]);
          var k :| 0 <= k < |s[1..]| && s[1..][k] == r[j];
          assert s[k + 1] == r[j];
        }
      }
    }
  }

  lemma {:induction false} SortByCountDescSorted(s: seq<Tally>)
    ensures ByCountDesc(SortByCountDesc(s))
    decreases |s|
  {
    if s != [] {
      SortByCountDescSorted(s[1..]);
      InsertByCountSorted(s[0], SortByCountDesc(s[1..]));
    }
  }

  /** The rows of s with count c, in their order in s. */
  function WithCount(c: int, s: seq<Tally>): seq<Tally>
  {
    if s == [] then []
    else (if s[0].count == c then [s[0]] else []) + WithCount(c, s[1..])
  }

  /** Inserting t adds it in front of the rows with its count and moves no other row of any count. */
  lemma {:induction false} InsertWithCount(c: int, t: Tally, s: seq<Tally>)
    ensures WithCount(c, InsertByCount(t, s)) == (if t.count == c then [t] else []) + WithCount(c, s)
    decreases |s|
  {
    if s == [] || s[0].count <= t.count {
      var r := [t] + s;
      assert r[1..] == s;
    } else {
      InsertWithCount(c, t, s[1..]);
      var r := [s[0]] + InsertByCount(t, s[1..]);
      assert r[1..] == InsertByCount(t, s[1..]);
      assert s[0].count != c || t.count != c;
    }
  }

  /** The sort is stable: rows with an equal count keep their relative order. */
  lemma {:induction false} SortByCountDescStable(c: int, s: seq<Tally>)
    ensures WithCount(c, SortByCountDesc(s)) == WithCount(c, s)
    decreases |s|
  {
    if s != [] {
      SortByCountDescStable(c, s[1..]);
      InsertWithCount(c, s[0], SortByCountDesc(s[1..]));
    }
  }

  /** Every row FilterKeep keeps passes the filter, and a passing row keeps its multiplicity. */
  lemma {:induction false} FilterKeepCounts(multiplicity: int, s: seq<Tally>)
    ensures forall t :: t in multiset(FilterKeep(multiplicity, s)) ==> Keep(multiplicity, t)
    ensures forall t :: Keep(multiplicity, t) ==> multiset(FilterKeep(multiplicity, s))[t] == multiset(s)[t]
    decreases |s|
  {
    if s != [] {
      FilterKeepCounts(multiplicity, s[1..]);
      assert s == [s[0]] + s[1..];
    }
  }

  /** FilterKeep keeps a subsequence, so it keeps the order by count. */
  lemma {:induction false} FilterKeepSorted(multiplicity: int, s: seq<Tally>)
    requires ByCountDesc(s)
    ensures ByCountDesc(FilterKeep(multiplicity, s))
    decreases |s|
  {
    if s != [] {
      FilterKeepSorted(multiplicity, s[1..]);
      FilterKeepCounts(multiplicity, s[1..]);
      if Keep(multiplicity, s[0]) {
        var r := FilterKeep(multiplicity, s[1..]);
        forall j | 0 <= j < |r| ensures s[0].count >= r[j].count {
          assert r[j] in multiset(r);
          assert r[j] in multiset(s[1..]);
          var k :| 0 <= k < |s[1..]| && s[1..][k] == r[j];
          assert s[k + 1] == r[j];
        }
      }
    }
  }

  /**
   * The table lists by non-increasing count exactly the rows that pass the
   * multiplicity filter, each as often as it occurs among the counters.
   */
  lemma TableProperties(rows: seq<Tally>, multiplicity: int)
    ensures ByCountDesc(Table(rows, multiplicity))
    ensures forall t :: t in multiset(Table(rows, multiplicity)) ==> Keep(multiplicity, t)
    ensures forall t :: Keep(multiplicity, t) ==> multiset(Table(rows, multiplicity))[t] == multiset(rows)[t]
  {
    SortByCountDescSorted(rows);
    FilterKeepSorted(multiplicity, SortByCountDesc(rows));
    FilterKeepCounts(multiplicity, SortByCountDesc(rows));
  }
}
