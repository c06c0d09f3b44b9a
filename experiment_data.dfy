/**
 * Reading experimental frequency files into identity -> count maps, and
 * matching them against simulated counters (ExperimentData.kt).
 */
module ExperimentData {
  import opened Wrappers
  import opened Text
  import opened SeqUtil
  import opened Events
  import opened Geometry
  import opened Tracks
  import opened Simulation

  // ---------------------------------------------------------------------
  // readData
  // ---------------------------------------------------------------------

  /**
   * The state readData keeps between lines: the current block's count, the
   * names seen in it (a HashSet, kept here in insertion order without
   * repetitions), whether a count line is expected next, and the result.
   */
  datatype Reader = Reader(count: int, names: seq<string>, blockBegin: bool, res: map<string, int>)

  const Start: Reader := Reader(0, [], true, map[])

  /** `names.add(n)`: nothing changes when n is already present. */
  function AddName(names: seq<string>, n: string): (r: seq<string>)
    ensures Distinct(names) ==> Distinct(r)
    ensures forall x :: x in r <==> x in names || x == n
  {
    if n in names then names else names + [n]
  }

  /** The name a body line contributes: "SC" + its first space-separated field. */
  function LineName(line: string): string
  {
    "SC" + Split(line, ' ')[0]
  }

  /** The count a count line carries: its second space-separated field as an Int. */
  function LineCount(line: string): Option<int>
  {
    var f := Split(line, ' ');
    if |f| < 2 then None else ParseInt(f[1])
  }

  /**
   * One line of readData. A count line that has no second field or whose
   * field is not an Int makes readData throw (Err).
   */
  function Step(r: Reader, line: string): Result<Reader>
  {
    if r.blockBegin then
      match LineCount(line)
      case None => Err("Bad count line: " + line)
      case Some(c) => Ok(r.(count := c, blockBegin := false))
    else if StartsWith(line, "#") then
      Ok(Reader(r.count, [], true, r.res[IdentityOf(r.names) := r.count]))
    else
      Ok(r.(names := AddName(r.names, LineName(line))))
  }

  /** readData's line loop as a left fold; the first error stops it. */
  function Run(r: Result<Reader>, lines: seq<string>): Result<Reader>
    decreases |lines|
  {
    if lines == [] || r.Err? then r
    else Run(Step(r.value, lines[0]), lines[1..])
  }

  lemma {:induction false} RunAppend(r: Result<Reader>, a: seq<string>, b: seq<string>)
    ensures Run(r, a + b) == Run(Run(r, a), b)
    decreases |a|
  {
    if a == [] {
      assert a + b == b;
    } else if r.Err? {
      assert Run(r, b) == r;
    } else {
      assert (a + b)[1..] == a[1..] + b;
      RunAppend(Step(r.value, a[0]), a[1..], b);
    }
  }

  /** `readData`: the identity -> count map of a frequency file, read line by line. */
  method ReadData(lines: seq<string>) returns (r: Result<map<string, int>>)
    ensures r.Err? <==> Run(Ok(Start), lines).Err?
    ensures r.Ok? ==> r.value == Run(Ok(Start), lines).value.res
  {
    var count := 0;
    var names: seq<string> := [];
    var blockBegin := true;
    var res: map<string, int> := map[];
    for i := 0 to |lines|
      invariant Run(Ok(Start), lines[..i]) == Ok(Reader(count, names, blockBegin, res))
    {
      var line := lines[i];
      assert lines[..i + 1] == lines[..i] + [line];
      RunAppend(Ok(Start), lines[..i], [line]);
      if blockBegin {
        var f := Split(line, ' ');
        if |f| < 2 {
          RunErrStays(lines, i + 1);
          return Err("Bad count line: " + line);
        }
        var c := ParseInt(f[1]);
        if c.None? {
          RunErrStays(lines, i + 1);
          return Err("Bad count line: " + line);
        }
        count := c.value;
        blockBegin := false;
      } else if StartsWith(line, "#") {
        res := res[IdentityOf(names) := count];
        names := [];
        blockBegin := true;
      } else {
        names := AddName(names, LineName(line));
      }
    }
    assert lines[..|lines|] == lines;
    return Ok(res);
  }

  /** Once a prefix fails, the whole run fails. */
  lemma RunErrStays(lines: seq<string>, n: nat)
    requires n <= |lines|
    requires Run(Ok(Start), lines[..n]).Err?
    ensures Run(Ok(Start), lines).Err?
  {
    assert lines == lines[..n] + lines[n..];
    RunAppend(Ok(Start), lines[..n], lines[n..]);
    ErrAbsorbs(Run(Ok(Start), lines[..n]), lines[n..]);
  }

  lemma {:induction false} ErrAbsorbs(r: Result<Reader>, lines: seq<string>)
    requires r.Err?
    ensures Run(r, lines) == r
  {
  }

  // ---------------------------------------------------------------------
  // Blocks
  // ---------------------------------------------------------------------

  /** Some line of `body` names x. */
  predicate NamedIn(body: seq<string>, x: string)
  {
    exists k :: 0 <= k < |body| && x == LineName(body[k])
  }

  /** The names the body lines of a block add, in first-appearance order. */
  function NamesOf(names: seq<string>, body: seq<string>): (r: seq<string>)
    ensures Distinct(names) ==> Distinct(r)
    ensures forall x :: x in r <==> x in names || NamedIn(body, x)
    decreases |body|
  {
    if body == [] then names
    else
      var r := NamesOf(AddName(names, LineName(body[0])), body[1..]);
      forall x ensures NamedIn(body, x) <==> x == LineName(body[0]) || NamedIn(body[1..], x) {
        if NamedIn(body, x) {
          var k :| 0 <= k < |body| && x == LineName(body[k]);
          if k > 0 {
            assert x == LineName(body[1..][k - 1]);
          }
        }
        if NamedIn(body[1..], x) {
          var k :| 0 <= k < |body[1..]| && x == LineName(body[1..][k]);
          assert x == LineName(body[k + 1]);
        }
      }
      r
  }

  /** A body line: anything that does not start with "#". */
  predicate BodyLines(body: seq<string>)
  {
    forall k :: 0 <= k < |body| ==> !StartsWith(body[k], "#")
  }

  lemma {:induction false} RunBody(r: Reader, body: seq<string>)
    requires !r.blockBegin && BodyLines(body)
    ensures Run(Ok(r), body) == Ok(r.(names := NamesOf(r.names, body)))
    decreases |body|
  {
    if body != [] {
      assert BodyLines(body[1..]) by {
        forall k | 0 <= k < |body[1..]| ensures !StartsWith(body[1..][k], "#") {
          assert body[1..][k] == body[k + 1];
        }
      }
      RunBody(r.(names := AddName(r.names, LineName(body[0]))), body[1..]);
    }
  }

  /**
   * A complete block -- a count line carrying c, body lines, a "#" line --
   * read at a block start: the result gains (put, not add) the block's
   * identity with count c, and the reader waits for the next count line
   * with no names.
   */
  lemma Block(r: Reader, countLine: string, body: seq<string>, terminator: string, c: int)
    requires r.blockBegin && r.names == []
    requires LineCount(countLine) == Some(c)
    requires BodyLines(body) && StartsWith(terminator, "#")
    ensures Run(Ok(r), [countLine] + body + [terminator])
      == Ok(Reader(c, [], true, r.res[IdentityOf(NamesOf([], body)) := c]))
  {
    var r1 := r.(count := c, blockBegin := false);
    assert ([countLine] + body + [terminator])[1..] == body + [terminator];
    RunAppend(Ok(r1), body, [terminator]);
    RunBody(r1, body);
  }

  /** A last block without its "#" line leaves the result as it was. */
  lemma Unterminated(r: Reader, countLine: string, body: seq<string>, c: int)
    requires r.blockBegin && r.names == []
    requires LineCount(countLine) == Some(c)
    requires BodyLines(body)
    ensures Run(Ok(r), [countLine] + body).Ok?
    ensures Run(Ok(r), [countLine] + body).value.res == r.res
  {
    var r1 := r.(count := c, blockBegin := false);
    assert ([countLine] + body)[1..] == body;
    RunBody(r1, body);
  }

  /**
   * The key a block is stored under is the identity of any event whose
   * hits have, without repetition, exactly the block's names.
   */
  lemma BlockKeyIsIdentity(body: seq<string>, e: Event)
    requires Distinct(Names(e.hits))
    requires forall x :: x in Names(e.hits) <==> x in NamesOf([], body)
    ensures IdentityOf(NamesOf([], body)) == Identity(e)
  {
    DistinctSameSet(NamesOf([], body), Names(e.hits));
    SortPermutationInvariant(NamesOf([], body), Names(e.hits));
  }

  // ---------------------------------------------------------------------
  // evalData
  // ---------------------------------------------------------------------

  /** The identities evalData uses: in the data, simulated, and passing the multiplicity filter. */
  function Used(data: map<string, int>, sim: map<string, Tally>, multiplicity: int): (r: set<string>)
    ensures forall id :: id in r <==> id in data && id in sim && Keep(multiplicity, sim[id])
  {
    set id | id in data && id in sim && Keep(multiplicity, sim[id])
  }

  /**
   * evalData's loop over the data map (in the map's own order) against
   * the counters' tallies: the simulated and the data counts of the used
   * identities are summed.
   */
  method EvalData(data: map<string, int>, sim: map<string, Tally>, multiplicity: int)
    returns (simCount: int, dataCount: int)
    ensures simCount == SumOver(Used(data, sim, multiplicity), id => if id in sim then sim[id].count else 0)
    ensures dataCount == SumOver(Used(data, sim, multiplicity), id => if id in data then data[id] else 0)
  {
    var fs := id => if id in sim then sim[id].count else 0;
    var fd := id => if id in data then data[id] else 0;
    simCount, dataCount := 0, 0;
    var rest := data.Keys;
    ghost var done: set<string> := {};
    while rest != {}
      invariant rest + done == data.Keys && rest !! done
      invariant simCount == SumOver(done * Used(data, sim, multiplicity), fs)
      invariant dataCount == SumOver(done * Used(data, sim, multiplicity), fd)
      decreases rest
    {
      var id :| id in rest;
      var used := done * Used(data, sim, multiplicity);
      if id in sim {
        var tally := sim[id];
        if multiplicity < 0 || tally.multiplicity == multiplicity {
          simCount := simCount + tally.count;
          dataCount := dataCount + data[id];
          SumOverAdd(used, fs, id);
          SumOverAdd(used, fd, id);
          assert (done + {id}) * Used(data, sim, multiplicity) == used + {id};
        } else {
          assert (done + {id}) * Used(data, sim, multiplicity) == used;
        }
      } else {
        assert (done + {id}) * Used(data, sim, multiplicity) == used;
      }
      rest := rest - {id};
      done := done + {id};
    }
    assert done * Used(data, sim, multiplicity) == Used(data, sim, multiplicity);
  }

  /**
   * Against the tallies of n simulated events, the number of used simulated
   * muons never exceeds n; with no filter and every simulated identity in
   * the data, it is n.
   */
  lemma UsedSimulated(events: seq<Event>, key: Event -> string, directionOf: Track -> Vec, data: map<string, int>, multiplicity: int)
    ensures SumOver(Used(data, TallyOf(events, key, directionOf), multiplicity),
        id => if id in TallyOf(events, key, directionOf) then TallyOf(events, key, directionOf)[id].count else 0)
      <= |events|
    ensures multiplicity < 0 && Keys(events, key) <= data.Keys ==>
      SumOver(Used(data, TallyOf(events, key, directionOf), multiplicity),
        id => if id in TallyOf(events, key, directionOf) then TallyOf(events, key, directionOf)[id].count else 0)
      == |events|
  {
    var sim := TallyOf(events, key, directionOf);
    var fs := id => if id in sim then sim[id].count else 0;
    var counts := id => CountKey(events, key, id);
    CountsSumToTotal(events, key);
    SumOverExt(Keys(events, key), fs, counts);
    SumOverSubset(Keys(events, key), Used(data, sim, multiplicity), fs);
    if multiplicity < 0 && Keys(events, key) <= data.Keys {
      assert Used(data, sim, multiplicity) == Keys(events, key);
    }
  }
}
