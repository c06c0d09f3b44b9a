/**
 * The 2-d angle histogram of SkyMap.kt: simulated events binned into
 * 1-degree (theta, phi) cells, each weighted by its identity's count in
 * the experiment data; reading and sampling such maps.
 */
module SkyMap {
  import opened Wrappers
  import opened Text
  import opened SeqUtil
  import opened Geometry
  import opened Tracks
  import opened Events
  import opened Simulation

  /** A cell of the map; theta and phi in degrees (theta is the zenith angle). */
  datatype SkyMapEntry = SkyMapEntry(theta: real, phi: real, value: real)

  /** `convert`: an angle in radians to the centre of its 1-degree bin. */
  function Convert(d: real): (r: real)
    ensures (r - 0.5).Floor as real == r - 0.5
    ensures r - 0.5 <= d * 180.0 / PI < r + 0.5
  {
    (d * 180.0 / PI).Floor as real + 0.5
  }

  /** Two angles share a bin exactly when their degree values have the same floor. */
  lemma ConvertSameBin(a: real, b: real)
    ensures Convert(a) == Convert(b) <==> (a * 180.0 / PI).Floor == (b * 180.0 / PI).Floor
  {
  }

  /** `experimentData?.getOrElse(id) { 0 } ?: 1`. */
  function Factor(data: Option<map<string, int>>, id: string): (r: int)
    ensures data.None? ==> r == 1
    ensures data.Some? && id !in data.value ==> r == 0
    ensures data.Some? && id in data.value ==> r == data.value[id]
  {
    match data
    case None => 1
    case Some(d) => if id in d then d[id] else 0
  }

  type Cell = (real, real)

  /** The (theta, phi) cell of a track. */
  function Bin(m: MathFns, t: Track): Cell
  {
    (Convert(Theta(m, t)), Convert(Phi(m, t)))
  }

  /** How many of the events fall into cell c. */
  function BinCount(events: seq<Event>, m: MathFns, c: Cell): (r: nat)
    ensures r <= |events|
  {
    if events == [] then 0
    else BinCount(events[..|events| - 1], m, c) + (if Bin(m, events[|events| - 1].track) == c then 1 else 0)
  }

  /** What identity `id` adds to cell c: its factor per event in c, nothing unless the factor is positive. */
  function Contribution(sim: map<string, seq<Event>>, data: Option<map<string, int>>, m: MathFns, id: string, c: Cell): (r: int)
    ensures r >= 0
  {
    if id in sim && Factor(data, id) > 0 then Factor(data, id) * BinCount(sim[id], m, c) else 0
  }

  /** The weight of cell c after the identities `ids` are processed. */
  ghost function Weight(sim: map<string, seq<Event>>, data: Option<map<string, int>>, m: MathFns, ids: set<string>, c: Cell): int
  {
    SumOver(ids, id => Contribution(sim, data, m, id, c))
  }

  /** The total weight the identities `ids` bring: factor times number of events, for positive factors. */
  ghost function Total(sim: map<string, seq<Event>>, data: Option<map<string, int>>, ids: set<string>): int
  {
    SumOver(ids, id => if id in sim && Factor(data, id) > 0 then Factor(data, id) * |sim[id]| else 0)
  }

  function Get(cells: map<Cell, int>, c: Cell): int
  {
    if c in cells then cells[c] else 0
  }

  /** The sum of all cell values. */
  ghost function CellSum(cells: map<Cell, int>): int
  {
    SumOver(cells.Keys, c => Get(cells, c))
  }

  lemma {:induction false} BinCountSnoc(events: seq<Event>, j: nat, m: MathFns, c: Cell)
    requires j < |events|
    ensures BinCount(events[..j + 1], m, c) == BinCount(events[..j], m, c) + (if Bin(m, events[j].track) == c then 1 else 0)
  {
    assert events[..j + 1][..j] == events[..j];
  }

  /** Adding f to one cell adds f to the sum of all cells. */
  lemma AddToCell(cells: map<Cell, int>, b: Cell, f: int)
    ensures CellSum(cells[b := Get(cells, b) + f]) == CellSum(cells) + f
  {
    var next := cells[b := Get(cells, b) + f];
    var g := c => Get(cells, c);
    var h := c => Get(next, c);
    SumOverExt(cells.Keys - {b}, g, h);
    if b in cells {
      SumOverRemove(cells.Keys, g, b);
      SumOverRemove(next.Keys, h, b);
      assert next.Keys == cells.Keys;
    } else {
      SumOverAdd(cells.Keys, h, b);
      assert next.Keys == cells.Keys + {b};
      assert cells.Keys - {b} == cells.Keys;
    }
  }

  /** The events of one identity, each adding the factor f > 0 to its cell. */
  method AddEvents(cells: map<Cell, int>, events: seq<Event>, m: MathFns, f: int) returns (next: map<Cell, int>)
    requires f > 0
    requires forall c :: c in cells ==> cells[c] > 0
    ensures forall c :: c in next ==> next[c] > 0
    ensures forall c :: Get(next, c) == Get(cells, c) + f * BinCount(events, m, c)
    ensures CellSum(next) == CellSum(cells) + f * |events|
  {
    next := cells;
    for j := 0 to |events|
      invariant forall c :: c in next ==> next[c] > 0
      invariant forall c :: Get(next, c) == Get(cells, c) + f * BinCount(events[..j], m, c)
      invariant CellSum(next) == CellSum(cells) + f * j
    {
      var b := Bin(m, events[j].track);
      ghost var before := next;
      next := next[b := Get(next, b) + f];
      AddToCell(before, b, f);
      assert f * (j + 1) == f * j + f;
      forall c ensures Get(next, c) == Get(cells, c) + f * BinCount(events[..j + 1], m, c) {
        BinCountSnoc(events, j, m, c);
        var k := BinCount(events[..j], m, c);
        var d := if b == c then 1 else 0;
        assert f * (k + d) == f * k + f * d;
      }
    }
    assert events[..|events|] == events;
  }

  /**
   * `generateMap` over the simulated events of each identity (visited in
   * the map's own order): every event of an identity with a positive
   * factor adds that factor to its cell, a cell being created just
   * before its first addition.
   */
  method GenerateCells(sim: map<string, seq<Event>>, data: Option<map<string, int>>, m: MathFns)
    returns (cells: map<Cell, int>)
    ensures forall c :: c in cells ==> cells[c] > 0
    ensures forall c :: Get(cells, c) == Weight(sim, data, m, sim.Keys, c)
    ensures CellSum(cells) == Total(sim, data, sim.Keys)
  {
    cells := map[];
    var rest := sim.Keys;
    ghost var done: set<string> := {};
    while rest != {}
      invariant rest + done == sim.Keys && rest !! done
      invariant forall c :: c in cells ==> cells[c] > 0
      invariant forall c :: Get(cells, c) == Weight(sim, data, m, done, c)
      invariant CellSum(cells) == Total(sim, data, done)
      decreases rest
    {
      var id :| id in rest;
      var f := Factor(data, id);
      if f > 0 {
        cells := AddEvents(cells, sim[id], m, f);
      }
      forall c ensures Get(cells, c) == Weight(sim, data, m, done + {id}, c) {
        SumOverAdd(done, id => Contribution(sim, data, m, id, c), id);
      }
      SumOverAdd(done, id => if id in sim && Factor(data, id) > 0 then Factor(data, id) * |sim[id]| else 0, id);
      rest := rest - {id};
      done := done + {id};
    }
  }

  /** The entry of a cell: theta back to 90 - theta-bin, the accumulated count as value. */
  function EntryOf(c: Cell, value: int): SkyMapEntry
  {
    SkyMapEntry(90.0 - c.0, c.1, value as real)
  }

  /** `map.map { ... }`: one entry per populated cell, in the map's own order. */
  method Entries(cells: map<Cell, int>) returns (order: seq<Cell>, entries: seq<SkyMapEntry>)
    ensures Distinct(order) && forall c :: c in order <==> c in cells
    ensures |entries| == |order|
    ensures forall k :: 0 <= k < |order| ==> order[k] in cells && entries[k] == EntryOf(order[k], cells[order[k]])
  {
    order, entries := [], [];
    var rest := cells.Keys;
    while rest != {}
      invariant rest <= cells.Keys
      invariant Distinct(order) && forall c :: c in order <==> c in cells.Keys - rest
      invariant |entries| == |order|
      invariant forall k :: 0 <= k < |order| ==> order[k] in cells && entries[k] == EntryOf(order[k], cells[order[k]])
      decreases rest
    {
      var c :| c in rest;
      assert c !in order;
      order := order + [c];
      entries := entries + [EntryOf(c, cells[c])];
      rest := rest - {c};
    }
  }

  /**
   * `generateMap`: the cells and their entries. Each entry's value is the
   * summed factor of the events in its cell, and the values add up to the
   * summed factor times event count over all identities.
   */
  method GenerateMap(sim: map<string, seq<Event>>, data: Option<map<string, int>>, m: MathFns)
    returns (cells: map<Cell, int>, order: seq<Cell>, entries: seq<SkyMapEntry>)
    ensures forall c :: c in cells ==> cells[c] > 0 && cells[c] == Weight(sim, data, m, sim.Keys, c)
    ensures forall c :: c !in cells ==> Weight(sim, data, m, sim.Keys, c) == 0
    ensures CellSum(cells) == Total(sim, data, sim.Keys)
    ensures Distinct(order) && forall c :: c in order <==> c in cells
    ensures |entries| == |order|
    ensures forall k :: 0 <= k < |order| ==> order[k] in cells && entries[k] == EntryOf(order[k], cells[order[k]])
  {
    cells := GenerateCells(sim, data, m);
    order, entries := Entries(cells);
  }

  /** Identities whose factor is not positive -- absent from the data, or counted 0 -- add to no cell. */
  lemma ZeroFactorAddsNothing(sim: map<string, seq<Event>>, data: Option<map<string, int>>, m: MathFns, id: string, c: Cell)
    requires Factor(data, id) <= 0
    ensures Contribution(sim, data, m, id, c) == 0
  {
  }

  /** `loadMap`: every line not starting with "#" becomes an entry from its first three fields. */
  method LoadMap(lines: seq<string>, parseDouble: string -> Option<real>) returns (r: Result<seq<SkyMapEntry>>)
    ensures r.Ok? <==> forall k :: 0 <= k < |DataLines(lines)| ==> ParseTriple(DataLines(lines)[k], parseDouble).Some?
    ensures r.Ok? ==> |r.value| == |DataLines(lines)|
    ensures r.Ok? ==> forall k :: 0 <= k < |r.value| ==>
      var t := ParseTriple(DataLines(lines)[k], parseDouble).value;
      r.value[k] == SkyMapEntry(t.first, t.second, t.third)
  {
    var table := LoadTable(lines, parseDouble);
    match table
    case Err(e) => return Err(e);
    case Ok(rows) =>
      return Ok(seq(|rows|, k requires 0 <= k < |rows| => SkyMapEntry(rows[k].first, rows[k].second, rows[k].third)));
  }

  /** SkyMap.kt's EmpiricalDistributionTrackGenerator: `sample` is the entry the distribution drew. */
  function SkyEmpiricalParams(rows: seq<SkyMapEntry>, maxX: real, maxY: real, angleStep: real,
                              u1: real, u2: real, sample: nat, u3: real, u4: real): TrackParams
    requires sample < |rows|
  {
    EmpiricalParams(maxX, maxY, angleStep, rows[sample].theta, rows[sample].phi, u1, u2, u3, u4)
  }

  /** The drawn direction lies within half an angle step of the sampled entry's cell on each axis. */
  lemma SkyEmpiricalJitter(rows: seq<SkyMapEntry>, maxX: real, maxY: real, angleStep: real,
                           u1: real, u2: real, sample: nat, u3: real, u4: real)
    requires sample < |rows|
    requires IsDraw(u1) && IsDraw(u2) && IsDraw(u3) && IsDraw(u4)
    requires maxX > 0.0 && maxY > 0.0 && angleStep > 0.0
    ensures -(PI / 180.0 * angleStep / 2.0)
      < SkyEmpiricalParams(rows, maxX, maxY, angleStep, u1, u2, sample, u3, u4).theta - PI / 180.0 * (90.0 - rows[sample].theta)
      <= PI / 180.0 * angleStep / 2.0
    ensures -(PI / 180.0 * angleStep / 2.0)
      < SkyEmpiricalParams(rows, maxX, maxY, angleStep, u1, u2, sample, u3, u4).phi - PI / 180.0 * rows[sample].phi
      <= PI / 180.0 * angleStep / 2.0
  {
    EmpiricalJitter(maxX, maxY, angleStep, rows[sample].theta, rows[sample].phi, u1, u2, u3, u4);
  }
}
