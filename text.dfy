/**
 * The string operations of the Kotlin/Java standard library that the
 * simulator relies on: `startsWith`, `compareTo` and `sorted()`,
 * `joinToString`, `split`, `trim`, `toString()` of an Int and `toInt()`.
 */
module Text {
  import opened Wrappers

  predicate StartsWith(s: string, prefix: string)
  {
    |prefix| <= |s| && s[..|prefix|] == prefix
  }

  /** `Char.isWhitespace()` on the JVM: Java's isWhitespace or isSpaceChar. */
  predicate IsWhitespace(c: char)
  {
    c == ' ' || c == '\t' || c == '\n' || c == '\U{000B}' || c == '\U{000C}' || c == '\r'
    || ('\U{001C}' <= c <= '\U{001F}') || c == '\U{00A0}' || c == '\U{1680}'
    || ('\U{2000}' <= c <= '\U{200A}') || c == '\U{2028}' || c == '\U{2029}'
    || c == '\U{202F}' || c == '\U{205F}' || c == '\U{3000}'
  }

  /** The class `\s` of java.util.regex without UNICODE_CHARACTER_CLASS. */
  predicate IsRegexSpace(c: char)
  {
    c == ' ' || c == '\t' || c == '\n' || c == '\U{000B}' || c == '\U{000C}' || c == '\r'
  }

  /** n copies of c. */
  function Repeat(c: char, n: nat): (r: string)
    ensures |r| == n
    ensures forall i :: 0 <= i < n ==> r[i] == c
  {
    seq(n, _ => c)
  }

  // ---------------------------------------------------------------------
  // String order (java.lang.String.compareTo) and sorting
  // ---------------------------------------------------------------------

  /** `a.compareTo(b) <= 0`: lexicographic by character, a proper prefix first. */
  predicate LexLe(a: string, b: string)
    decreases |a|
  {
    if a == [] then true
    else if b == [] then false
    else if a[0] != b[0] then a[0] < b[0]
    else LexLe(a[1..], b[1..])
  }

  lemma {:induction false} LexLeReflexive(a: string)
    ensures LexLe(a, a)
    decreases |a|
  {
    if a != [] {
      LexLeReflexive(a[1..]);
    }
  }

  lemma {:induction false} LexLeTotal(a: string, b: string)
    ensures LexLe(a, b) || LexLe(b, a)
    decreases |a|
  {
    if a != [] && b != [] && a[0] == b[0] {
      LexLeTotal(a[1..], b[1..]);
    }
  }

  lemma {:induction false} LexLeAntisymmetric(a: string, b: string)
    requires LexLe(a, b) && LexLe(b, a)
    ensures a == b
    decreases |a|
  {
    if a != [] && b != [] {
      LexLeAntisymmetric(a[1..], b[1..]);
      assert a == [a[0]] + a[1..] && b == [b[0]] + b[1..];
    }
  }

  lemma {:induction false} LexLeTransitive(a: string, b: string, c: string)
    requires LexLe(a, b) && LexLe(b, c)
    ensures LexLe(a, c)
    decreases |a|
  {
    if a != [] && b != [] && c != [] && a[0] == b[0] && b[0] == c[0] {
      LexLeTransitive(a[1..], b[1..], c[1..]);
    }
  }

  predicate Sorted(s: seq<string>)
  {
    forall i, j :: 0 <= i < j < |s| ==> LexLe(s[i], s[j])
  }

  function Insert(x: string, s: seq<string>): (r: seq<string>)
    ensures multiset(r) == multiset(s) + multiset{x}
    ensures |r| == |s| + 1
  {
    if s == [] then [x]
    else if LexLe(x, s[0]) then [x] + s
    else
      assert s == [s[0]] + s[1..];
      [s[0]] + Insert(x, s[1..])
  }

  /** `sorted()` on a collection of strings (the result is unique, see SortedUnique). */
  function Sort(s: seq<string>): (r: seq<string>)
    ensures multiset(r) == multiset(s)
    ensures |r| == |s|
  {
    if s == [] then []
    else
      assert s == [s[0]] + s[1..];
      Insert(s[0], Sort(s[1..]))
  }

  lemma {:induction false} InsertSorted(x: string, s: seq<string>)
    requires Sorted(s)
    ensures Sorted(Insert(x, s))
    decreases |s|
  {
    if s == [] {
    } else if LexLe(x, s[0]) {
      var r := [x] + s;
      forall i, j | 0 <= i < j < |r| ensures LexLe(r[i], r[j]) {
        if i == 0 && j > 1 {
          LexLeTransitive(x, s[0], s[j - 1]);
        }
      }
    } else {
      LexLeTotal(x, s[0]);
      InsertSorted(x, s[1..]);
      var t := Insert(x, s[1..]);
      var r := [s[0]] + t;
      forall i, j | 0 <= i < j < |r| ensures LexLe(r[i], r[j]) {
        if i == 0 {
          var y := t[j - 1];
          assert y in multiset(t);
          assert y in multiset(s[1..]) + multiset{x};
          if y != x {
            assert y in s[1..];
            var k :| 0 <= k < |s[1..]| && s[1..][k] == y;
            assert s[k + 1] == y;
          }
        }
      }
    }
  }

  lemma {:induction false} SortSorted(s: seq<string>)
    ensures Sorted(Sort(s))
    decreases |s|
  {
    if s != [] {
      SortSorted(s[1..]);
      InsertSorted(s[0], Sort(s[1..]));
    }
  }

  lemma SortedHeadIsLeast(s: seq<string>, x: string)
    requires Sorted(s) && x in multiset(s)
    ensures s != [] && LexLe(s[0], x)
  {
    var k :| 0 <= k < |s| && s[k] == x;
    if k == 0 {
      LexLeReflexive(x);
    } else {
      assert LexLe(s[0], s[k]);
    }
  }

  /** Two sorted sequences with the same elements are equal. */
  lemma {:induction false} SortedUnique(a: seq<string>, b: seq<string>)
    requires Sorted(a) && Sorted(b) && multiset(a) == multiset(b)
    ensures a == b
    decreases |a|
  {
    if a == [] {
      assert |b| == |multiset(b)| == 0;
    } else {
      SortedSameHead(a, b);
      SortedTail(a);
      SortedTail(b);
      SortedUnique(a[1..], b[1..]);
      assert a == [a[0]] + a[1..] && b == [b[0]] + b[1..];
    }
  }

  lemma SortedSameHead(a: seq<string>, b: seq<string>)
    requires Sorted(a) && Sorted(b) && multiset(a) == multiset(b) && a != []
    ensures b != [] && a[0] == b[0]
  {
    assert a[0] in multiset(a);
    SortedHeadIsLeast(b, a[0]);
    SortedHeadIsLeast(a, b[0]);
    LexLeAntisymmetric(a[0], b[0]);
  }

  lemma SortedTail(s: seq<string>)
    requires Sorted(s) && s != []
    ensures Sorted(s[1..])
    ensures multiset(s[1..]) == multiset(s) - multiset{s[0]}
  {
    assert s == [s[0]] + s[1..];
  }

  /** The sorted order of a collection depends only on its elements, not on their order. */
  lemma SortPermutationInvariant(a: seq<string>, b: seq<string>)
    requires multiset(a) == multiset(b)
    ensures Sort(a) == Sort(b)
  {
    SortSorted(a);
    SortSorted(b);
    SortedUnique(Sort(a), Sort(b));
  }

  // ---------------------------------------------------------------------
  // joinToString, split and trim
  // ---------------------------------------------------------------------

  /** `xs.joinToString(separator = sep, prefix = "", postfix = "")`. */
  function Join(xs: seq<string>, sep: string): string
  {
    if |xs| == 0 then ""
    else if |xs| == 1 then xs[0]
    else xs[0] + sep + Join(xs[1..], sep)
  }

  /** `split(c)` with a one-character delimiter: every occurrence splits, empty pieces are kept. */
  function Split(s: string, c: char): (r: seq<string>)
    ensures |r| >= 1
  {
    if s == [] then [""]
    else if s[0] == c then [""] + Split(s[1..], c)
    else
      var rest := Split(s[1..], c);
      [[s[0]] + rest[0]] + rest[1..]
  }

  lemma {:induction false} SplitNoDelimiter(s: string, c: char)
    requires c !in s
    ensures Split(s, c) == [s]
    decreases |s|
  {
    if s != [] {
      SplitNoDelimiter(s[1..], c);
      assert s == [s[0]] + s[1..];
    }
  }

  lemma {:induction false} SplitAtDelimiter(a: string, c: char, b: string)
    requires c !in a
    ensures Split(a + [c] + b, c) == [a] + Split(b, c)
    decreases |a|
  {
    if a == [] {
      assert a + [c] + b == [c] + b;
      assert ([c] + b)[1..] == b;
    } else {
      SplitAtDelimiter(a[1..], c, b);
      assert (a + [c] + b)[1..] == a[1..] + [c] + b;
      assert a == [a[0]] + a[1..];
    }
  }

  /**
   * Splitting a joined list at the separator's first character gives the
   * pieces back, every piece after the first still carrying the rest `pad`
   * of the separator.
   */
  lemma {:induction false} SplitJoin(lead: string, ys: seq<string>, c: char, pad: string)
    requires |ys| >= 1
    requires c !in lead && c !in pad
    requires forall y :: y in ys ==> c !in y
    ensures |Split(lead + Join(ys, [c] + pad), c)| == |ys|
    ensures Split(lead + Join(ys, [c] + pad), c)[0] == lead + ys[0]
    ensures forall i :: 1 <= i < |ys| ==> Split(lead + Join(ys, [c] + pad), c)[i] == pad + ys[i]
    decreases |ys|
  {
    var sep := [c] + pad;
    if |ys| == 1 {
      assert ys[0] in ys;
      SplitNoDelimiter(lead + ys[0], c);
    } else {
      assert ys[0] in ys;
      assert forall y :: y in ys[1..] ==> y in ys;
      var tail := pad + Join(ys[1..], sep);
      assert lead + Join(ys, sep) == (lead + ys[0]) + [c] + tail;
      SplitAtDelimiter(lead + ys[0], c, tail);
      SplitJoin(pad, ys[1..], c, pad);
    }
  }

  function TrimStart(s: string): (r: string)
    ensures |r| <= |s|
  {
    if s != [] && IsWhitespace(s[0]) then TrimStart(s[1..]) else s
  }

  function TrimEnd(s: string): (r: string)
    ensures |r| <= |s|
  {
    if s != [] && IsWhitespace(s[|s| - 1]) then TrimEnd(s[..|s| - 1]) else s
  }

  /** `trim()`: drops leading and trailing whitespace. */
  function Trim(s: string): string
  {
    TrimEnd(TrimStart(s))
  }

  /** A string that starts and ends with a non-whitespace character. */
  predicate Tight(s: string)
  {
    s != [] && !IsWhitespace(s[0]) && !IsWhitespace(s[|s| - 1])
  }

  lemma {:induction false} TrimPadded(pad: string, y: string)
    requires forall k :: 0 <= k < |pad| ==> IsWhitespace(pad[k])
    requires Tight(y)
    ensures Trim(pad + y) == y
    decreases |pad|
  {
    if pad == [] {
      assert pad + y == y;
    } else {
      assert (pad + y)[1..] == pad[1..] + y;
      TrimPadded(pad[1..], y);
    }
  }

  /** The pieces of `s` between maximal runs of `\s` (`split("\\s+".toPattern())`). */
  function SkipSpaces(s: string): (r: string)
    ensures |r| <= |s|
    ensures s != [] && IsRegexSpace(s[0]) ==> |r| < |s|
  {
    if s != [] && IsRegexSpace(s[0]) then SkipSpaces(s[1..]) else s
  }

  function SplitWs(s: string): (r: seq<string>)
    ensures |r| >= 1
    decreases |s|
  {
    if s == [] then [""]
    else if IsRegexSpace(s[0]) then [""] + SplitWs(SkipSpaces(s))
    else
      var rest := SplitWs(s[1..]);
      [[s[0]] + rest[0]] + rest[1..]
  }

  // ---------------------------------------------------------------------
  // Whitespace-separated tables of three numbers
  // ---------------------------------------------------------------------

  /** Three numbers read from the first three fields of a line. */
  datatype Triple = Triple(first: real, second: real, third: real)

  /**
   * The first three `\s+`-separated fields of a line, each read by
   * `parseDouble`; None where indexing or `toDouble()` throws.
   */
  function ParseTriple(line: string, parseDouble: string -> Option<real>): (r: Option<Triple>)
    ensures r.Some? <==>
      (|SplitWs(line)| >= 3 && parseDouble(SplitWs(line)[0]).Some?
       && parseDouble(SplitWs(line)[1]).Some? && parseDouble(SplitWs(line)[2]).Some?)
    ensures r.Some? ==> r.value == Triple(parseDouble(SplitWs(line)[0]).value,
      parseDouble(SplitWs(line)[1]).value, parseDouble(SplitWs(line)[2]).value)
  {
    var f := SplitWs(line);
    if |f| < 3 then None
    else match (parseDouble(f[0]), parseDouble(f[1]), parseDouble(f[2]))
      case (Some(a), Some(b), Some(c)) => Some(Triple(a, b, c))
      case _ => None
  }

  /** The lines that do not start with "#", in order. */
  function DataLines(lines: seq<string>): (r: seq<string>)
    ensures |r| <= |lines|
    ensures forall k :: 0 <= k < |r| ==> !StartsWith(r[k], "#")
  {
    if lines == [] then []
    else
      var rest := DataLines(lines[..|lines| - 1]);
      if StartsWith(lines[|lines| - 1], "#") then rest else rest + [lines[|lines| - 1]]
  }

  lemma {:induction false} DataLinesComplete(lines: seq<string>, i: nat)
    requires i < |lines| && !StartsWith(lines[i], "#")
    ensures lines[i] in DataLines(lines)
    decreases |lines|
  {
    if i < |lines| - 1 {
      assert lines[..|lines| - 1][i] == lines[i];
      DataLinesComplete(lines[..|lines| - 1], i);
    }
  }

  /**
   * Reading a table file line by line (`forEachLine`): lines starting with
   * "#" are skipped, every other line becomes one Triple. The first line
   * that does not parse ends the read with an error.
   */
  method LoadTable(lines: seq<string>, parseDouble: string -> Option<real>) returns (r: Result<seq<Triple>>)
    ensures r.Ok? <==> forall k :: 0 <= k < |DataLines(lines)| ==> ParseTriple(DataLines(lines)[k], parseDouble).Some?
    ensures r.Ok? ==> |r.value| == |DataLines(lines)|
    ensures r.Ok? ==>
      forall k :: 0 <= k < |r.value| ==> Some(r.value[k]) == ParseTriple(DataLines(lines)[k], parseDouble)
  {
    var rows: seq<Triple> := [];
    for i := 0 to |lines|
      invariant |rows| == |DataLines(lines[..i])|
      invariant forall k :: 0 <= k < |rows| ==> Some(rows[k]) == ParseTriple(DataLines(lines[..i])[k], parseDouble)
    {
      assert lines[..i + 1][..i] == lines[..i];
      if !StartsWith(lines[i], "#") {
        var t := ParseTriple(lines[i], parseDouble);
        if t.None? {
          DataLinesPrefix(lines, i + 1);
          assert DataLines(lines)[|rows|] == lines[i];
          return Err("Could not read line " + lines[i]);
        }
        rows := rows + [t.value];
      }
    }
    assert lines[..|lines|] == lines;
    return Ok(rows);
  }

  /** DataLines of a prefix is a prefix of DataLines. */
  lemma {:induction false} DataLinesPrefix(lines: seq<string>, n: nat)
    requires n <= |lines|
    ensures DataLines(lines[..n]) <= DataLines(lines)
    decreases |lines| - n
  {
    if n < |lines| {
      DataLinesPrefix(lines, n + 1);
      assert lines[..n + 1][..n] == lines[..n];
    } else {
      assert lines[..n] == lines;
    }
  }

  // ---------------------------------------------------------------------
  // Int to string and back
  // ---------------------------------------------------------------------

  const INT_MIN: int := -0x8000_0000
  const INT_MAX: int := 0x7FFF_FFFF

  predicate IsDigit(c: char) { '0' <= c <= '9' }

  function DigitChar(d: nat): char
    requires d < 10
  {
    (48 + d) as char
  }

  /** Decimal digits of a natural number, most significant first, no leading zero. */
  function NatToString(n: nat): (r: string)
    ensures |r| >= 1
    ensures forall k :: 0 <= k < |r| ==> IsDigit(r[k])
  {
    if n < 10 then [DigitChar(n)] else NatToString(n / 10) + [DigitChar(n % 10)]
  }

  /** Kotlin's `"$i"` for an Int. */
  function IntToString(i: int): string
  {
    if i < 0 then "-" + NatToString(-i) else NatToString(i)
  }

  function DigitsValue(ds: string): nat
    requires forall k :: 0 <= k < |ds| ==> IsDigit(ds[k])
  {
    if ds == [] then 0
    else
      assert IsDigit(ds[|ds| - 1]);
      DigitsValue(ds[..|ds| - 1]) * 10 + ((ds[|ds| - 1] as int) - 48)
  }

  predicate AllDigits(s: string)
  {
    s != [] && forall k :: 0 <= k < |s| ==> IsDigit(s[k])
  }

  /**
   * `String.toInt()` (Integer.parseInt): an optional sign, one or more
   * decimal digits, and a value inside the 32-bit range; None where the
   * source throws NumberFormatException.
   */
  function ParseInt(s: string): (r: Option<int>)
    ensures r.Some? ==> INT_MIN <= r.value <= INT_MAX
  {
    if s == [] then None
    else
      var negative := s[0] == '-';
      var body := if s[0] == '-' || s[0] == '+' then s[1..] else s;
      if !AllDigits(body) then None
      else
        var v: int := if negative then -(DigitsValue(body) as int) else DigitsValue(body);
        if INT_MIN <= v <= INT_MAX then Some(v) else None
  }

  lemma {:induction false} DigitsOfNat(n: nat)
    ensures DigitsValue(NatToString(n)) == n
    decreases n
  {
    var s := NatToString(n);
    if n >= 10 {
      DigitsOfNat(n / 10);
      assert s[..|s| - 1] == NatToString(n / 10);
    }
  }

  lemma ParseIntToString(i: int)
    requires INT_MIN <= i <= INT_MAX
    ensures ParseInt(IntToString(i)) == Some(i)
  {
    var digits := NatToString(if i < 0 then -i else i);
    DigitsOfNat(if i < 0 then -i else i);
    assert AllDigits(digits);
    if i < 0 {
      var s := "-" + digits;
      assert s[0] == '-' && s[1..] == digits;
    } else {
      assert IsDigit(digits[0]);
    }
  }

  lemma {:induction false} NatToStringInjective(a: nat, b: nat)
    requires NatToString(a) == NatToString(b)
    ensures a == b
  {
    DigitsOfNat(a);
    DigitsOfNat(b);
  }
}
