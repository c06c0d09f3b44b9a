/**
 * Events: a track with the pixels it hits, the canonical identity string
 * of a hit pattern, the hit resolver, and the raw per-detector output
 * (Event.kt).
 */
module Events {
  import opened Wrappers
  import opened Text
  import opened Geometry
  import opened Tracks
  import opened Pixels
  import opened SeqUtil

  datatype Event = Event(track: Track, hits: seq<Pixel>)

  /** The hits' names, in order. */
  function Names(hits: seq<Pixel>): seq<string>
  {
    MapSeq(hits, (p: Pixel) => p.name)
  }

  /** `names.sorted().joinToString(", ", "[", "]")`, shared by getIdentity and readData. */
  function IdentityOf(names: seq<string>): string
  {
    "[" + Join(Sort(names), ", ") + "]"
  }

  /** `getIdentity`: the hits sorted by name; their names joined by ", " inside brackets. */
  function Identity(e: Event): string
  {
    IdentityOf(Names(e.hits))
  }

  /** The identity does not depend on the order in which the hits are listed. */
  lemma IdentityPermutation(t: Track, a: seq<Pixel>, b: seq<Pixel>)
    requires multiset(a) == multiset(b)
    ensures Identity(Event(t, a)) == Identity(Event(t, b))
  {
    MapSeqPermutation(a, b, (p: Pixel) => p.name);
    SortPermutationInvariant(Names(a), Names(b));
  }

  /** An event without hits has identity "[]". */
  lemma IdentityEmpty(t: Track)
    ensures Identity(Event(t, [])) == "[]"
  {
  }

  /** Names the identity format can tell apart: non-empty and free of commas. */
  predicate PlainName(n: string)
  {
    n != [] && ',' !in n
  }

  lemma {:induction false} JoinStartsWithFirst(xs: seq<string>, sep: string)
    requires |xs| >= 1
    ensures |Join(xs, sep)| >= |xs[0]|
  {
  }

  /** Joining with a separator that starts with a character none of the pieces contains is injective. */
  lemma {:induction false} JoinInjective(a: seq<string>, b: seq<string>, c: char, pad: string)
    requires |a| >= 1 && |b| >= 1
    requires c !in pad
    requires forall y :: y in a ==> c !in y
    requires forall y :: y in b ==> c !in y
    requires Join(a, [c] + pad) == Join(b, [c] + pad)
    ensures a == b
  {
    var sep := [c] + pad;
    assert "" + Join(a, sep) == Join(a, sep);
    assert "" + Join(b, sep) == Join(b, sep);
    SplitJoin("", a, c, pad);
    SplitJoin("", b, c, pad);
    var pieces := Split(Join(a, sep), c);
    assert |a| == |b|;
    forall i | 0 <= i < |a|
      ensures a[i] == b[i]
    {
      if i == 0 {
        assert "" + a[0] == a[0] && "" + b[0] == b[0];
      } else {
        assert (pad + a[i])[|pad|..] == a[i];
        assert (pad + b[i])[|pad|..] == b[i];
      }
    }
  }

  lemma SortKeepsPlain(a: seq<string>)
    requires forall n :: n in a ==> PlainName(n)
    ensures forall n :: n in Sort(a) ==> PlainName(n)
  {
    forall n | n in Sort(a) ensures PlainName(n) {
      assert n in multiset(Sort(a));
    }
  }

  /** Sorting a collection of plain names and joining them loses no information. */
  lemma JoinSortedInjective(a: seq<string>, b: seq<string>)
    requires forall n :: n in a ==> PlainName(n)
    requires forall n :: n in b ==> PlainName(n)
    requires Join(Sort(a), ", ") == Join(Sort(b), ", ")
    ensures multiset(a) == multiset(b)
  {
    SortKeepsPlain(a);
    SortKeepsPlain(b);
    JoinPlainInjective(Sort(a), Sort(b));
  }

  lemma JoinPlainInjective(a: seq<string>, b: seq<string>)
    requires forall n :: n in a ==> PlainName(n)
    requires forall n :: n in b ==> PlainName(n)
    requires Join(a, ", ") == Join(b, ", ")
    ensures a == b
  {
    if a == [] || b == [] {
      if a != [] {
        assert a[0] in a;
        JoinStartsWithFirst(a, ", ");
      }
      if b != [] {
        assert b[0] in b;
        JoinStartsWithFirst(b, ", ");
      }
    } else {
      assert [','] + " " == ", ";
      JoinInjective(a, b, ',', " ");
    }
  }

  /**
   * Two collections of plain names have the same identity exactly when
   * they hold the same names, each as often.
   */
  lemma IdentityOfInjective(a: seq<string>, b: seq<string>)
    requires forall n :: n in a ==> PlainName(n)
    requires forall n :: n in b ==> PlainName(n)
    ensures IdentityOf(a) == IdentityOf(b) <==> multiset(a) == multiset(b)
  {
    if multiset(a) == multiset(b) {
      SortPermutationInvariant(a, b);
    }
    if IdentityOf(a) == IdentityOf(b) {
      var ja, jb := Join(Sort(a), ", "), Join(Sort(b), ", ");
      assert ja == IdentityOf(a)[1..|IdentityOf(a)| - 1];
      assert jb == IdentityOf(b)[1..|IdentityOf(b)| - 1];
      JoinSortedInjective(a, b);
    }
  }

  /** For hits with plain names, equal identities mean equal name collections, and back. */
  lemma IdentityInjective(t1: Track, a: seq<Pixel>, t2: Track, b: seq<Pixel>)
    requires forall n :: n in Names(a) ==> PlainName(n)
    requires forall n :: n in Names(b) ==> PlainName(n)
    ensures Identity(Event(t1, a)) == Identity(Event(t2, b)) <==> multiset(Names(a)) == multiset(Names(b))
  {
    IdentityOfInjective(Names(a), Names(b));
  }

  /** `buildEventByTrack`: the unchanged track with what the resolver returns for it (None: it threw). */
  function BuildEventByTrack(t: Track, resolver: Track -> Option<seq<Pixel>>): (r: Option<Event>)
    ensures r.None? <==> resolver(t).None?
    ensures r.Some? ==> r.value.track == t && r.value.hits == resolver(t).value
  {
    match resolver(t)
    case None => None
    case Some(hits) => Some(Event(t, hits))
  }

  /**
   * `defaultHitResolver` over the pixel map: every pixel that the track
   * hits, each once, in an unspecified order (a HashSet). isHit throws for a
   * track parallel to the layers, which surfaces as soon as one pixel is
   * tested (None).
   */
  method DefaultHitResolver(pixels: map<string, Pixel>, t: Track) returns (r: Option<seq<Pixel>>)
    ensures r.None? <==> pixels.Values != {} && Parallel(t.line.direction)
    ensures r.Some? ==> forall i, j :: 0 <= i < j < |r.value| ==> r.value[i] != r.value[j]
    ensures r.Some? ==> forall p :: p in r.value <==> p in pixels.Values && p.IsHit(t) == Some(true)
  {
    var rest := pixels.Values;
    var hits: seq<Pixel> := [];
    while rest != {}
      invariant rest <= pixels.Values
      invariant forall i, j :: 0 <= i < j < |hits| ==> hits[i] != hits[j]
      invariant forall p :: p in hits <==> p in pixels.Values - rest && p.IsHit(t) == Some(true)
      invariant rest != pixels.Values ==> !Parallel(t.line.direction)
      decreases rest
    {
      var p :| p in rest;
      var h := p.IsHit(t);
      if h.None? {
        return None;
      }
      if h.value {
        hits := hits + [p];
      }
      rest := rest - {p};
    }
    return Some(hits);
  }

  /** `buildEventByTrack(track)` with the default resolver. */
  method BuildEventDefault(pixels: map<string, Pixel>, t: Track) returns (r: Option<Event>)
    ensures r.None? <==> pixels.Values != {} && Parallel(t.line.direction)
    ensures r.Some? ==> r.value.track == t
    ensures r.Some? ==> forall p :: p in r.value.hits <==> p in pixels.Values && p.IsHit(t) == Some(true)
  {
    var hits := DefaultHitResolver(pixels, t);
    if hits.None? {
      return None;
    }
    return Some(Event(t, hits.value));
  }

  const RAW_HEADER: string := "0 -1 -1 -1 -1 xxxxxxxxxxxxxxxx"

  function RawPrefix(detector: int): string
  {
    "1 " + IntToString(detector) + " -1 -1 -1 "
  }

  /** Some hit of `detector` has pixel number i. */
  predicate HasPixel(hits: seq<Pixel>, detectorOf: Pixel -> int, pixelOf: Pixel -> int, detector: int, i: int)
  {
    exists k :: 0 <= k < |hits| && detectorOf(hits[k]) == detector && pixelOf(hits[k]) == i
  }

  /** The raw line of one detector: its prefix, then 16 marks, '1' exactly at the pixel numbers it has. */
  predicate IsRawLine(line: string, hits: seq<Pixel>, detectorOf: Pixel -> int, pixelOf: Pixel -> int, detector: int)
  {
    var prefix := RawPrefix(detector);
    |line| == |prefix| + 16 && line[..|prefix|] == prefix
    && forall i :: 0 <= i < 16 ==>
         line[|prefix| + i] == (if HasPixel(hits, detectorOf, pixelOf, detector, i) then '1' else '0')
  }

  /** One detector line, marking the pixel numbers in `list` (hitMap's entry for the detector). */
  method RawLine(d: int, list: seq<int>, hits: seq<Pixel>, detectorOf: Pixel -> int, pixelOf: Pixel -> int)
    returns (line: string)
    requires forall i :: i in list <==> HasPixel(hits, detectorOf, pixelOf, d, i)
    ensures IsRawLine(line, hits, detectorOf, pixelOf, d)
  {
    var prefix := RawPrefix(d);
    line := prefix;
    for i := 0 to 16
      invariant |line| == |prefix| + i && line[..|prefix|] == prefix
      invariant forall k :: 0 <= k < i ==>
        line[|prefix| + k] == (if HasPixel(hits, detectorOf, pixelOf, d, k) then '1' else '0')
    {
      if i in list {
        line := line + "1";
      } else {
        line := line + "0";
      }
    }
  }

  /** The `hitMap` of printEventAsRaw: for each detector among the hits, its hits' pixel numbers. */
  /**
   * The HashMap's keys are returned as `keys`, without repetition; the
   * model fixes one iteration order, first appearance, where the source
   * leaves it open.
   */
  method BuildHitMap(hits: seq<Pixel>, detectorOf: Pixel -> int, pixelOf: Pixel -> int)
    returns (hitMap: map<int, seq<int>>, keys: seq<int>)
    ensures forall d :: d in hitMap <==> exists k :: 0 <= k < |hits| && detectorOf(hits[k]) == d
    ensures forall d, i :: d in hitMap ==> (i in hitMap[d] <==> HasPixel(hits, detectorOf, pixelOf, d, i))
    ensures forall d :: d in keys <==> d in hitMap
    ensures forall i, j :: 0 <= i < j < |keys| ==> keys[i] != keys[j]
  {
    hitMap := map[];
    keys := [];
    for j := 0 to |hits|
      invariant forall d :: d in hitMap <==> exists k :: 0 <= k < j && detectorOf(hits[k]) == d
      invariant forall d, i :: d in hitMap ==>
        (i in hitMap[d] <==> exists k :: 0 <= k < j && detectorOf(hits[k]) == d && pixelOf(hits[k]) == i)
      invariant forall d :: d in keys <==> d in hitMap
      invariant forall i, j :: 0 <= i < j < |keys| ==> keys[i] != keys[j]
    {
      var d := detectorOf(hits[j]);
      var list := [];
      if d in hitMap {
        list := hitMap[d];
      } else {
        keys := keys + [d];
      }
      hitMap := hitMap[d := list + [pixelOf(hits[j])]];
    }
  }

  /**
   * `printEventAsRaw`: the printed lines, the header first and then one line
   * per distinct detector among the hits, in `detectors` order (the
   * iteration order of a HashMap, left open). Pixel and detector numbers
   * come from functions Pixel.kt does not define, so they are parameters.
   */
  method PrintEventAsRaw(e: Event, detectorOf: Pixel -> int, pixelOf: Pixel -> int)
    returns (lines: seq<string>, detectors: seq<int>)
    ensures |lines| == |detectors| + 1 && lines[0] == RAW_HEADER
    ensures forall i, j :: 0 <= i < j < |detectors| ==> detectors[i] != detectors[j]
    ensures forall d :: d in detectors <==> exists k :: 0 <= k < |e.hits| && detectorOf(e.hits[k]) == d
    ensures forall i :: 0 <= i < |detectors| ==> IsRawLine(lines[i + 1], e.hits, detectorOf, pixelOf, detectors[i])
  {
    var hits := e.hits;
    var hitMap, keys := BuildHitMap(hits, detectorOf, pixelOf);
    lines := [RAW_HEADER];
    for k := 0 to |keys|
      invariant |lines| == k + 1 && lines[0] == RAW_HEADER
      invariant forall i :: 0 <= i < k ==> IsRawLine(lines[i + 1], hits, detectorOf, pixelOf, keys[i])
    {
      var line := RawLine(keys[k], hitMap[keys[k]], hits, detectorOf, pixelOf);
      lines := lines + [line];
    }
    detectors := keys;
  }
}
