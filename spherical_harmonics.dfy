/**
 * The integer bookkeeping and the Legendre recurrence of the spherical
 * harmonics helper (SphericalHarmonics.kt): how many functions there are up
 * to an order, how a flat coefficient array is labelled by (l, m), the
 * factorial ratio of the normalisation, and the associated Legendre values
 * by recurrence.
 */
module SphericalHarmonics {
  import opened Wrappers
  import Text

  // ---------------------------------------------------------------------
  // Kotlin Int division
  // ---------------------------------------------------------------------

  /** Kotlin's Int `/` by a positive divisor: the quotient rounded toward zero. */
  function KotlinDiv(a: int, b: int): (r: int)
    requires b > 0
    ensures a >= 0 ==> r == a / b
    ensures a < 0 ==> r == -((-a) / b)
  {
    if a >= 0 then a / b else -((-a) / b)
  }

  /** Kotlin's Int `%` by a positive divisor: the remainder takes the sign of a. */
  function KotlinRem(a: int, b: int): (r: int)
    requires b > 0
    ensures a == b * KotlinDiv(a, b) + r
    ensures a >= 0 ==> 0 <= r < b
    ensures a < 0 ==> -b < r <= 0
  {
    a - b * KotlinDiv(a, b)
  }

  // ---------------------------------------------------------------------
  // funcsUpTo / evenFuncsUpTo
  // ---------------------------------------------------------------------

  /** `funcsUpTo`: the number of harmonics Y_lm with l <= order. */
  function FuncsUpTo(order: int): int
  {
    (order + 1) * (order + 1)
  }

  /** The harmonics Y_lm, -l <= m <= l, counted order by order: 2l + 1 of order l. */
  function AllHarmonics(order: int): nat
    decreases order + 1
  {
    if order < 0 then 0 else AllHarmonics(order - 1) + 2 * order + 1
  }

  lemma {:induction false} FuncsUpToCounts(order: int)
    requires order >= -1
    ensures FuncsUpTo(order) == AllHarmonics(order)
    decreases order + 1
  {
    if order >= 0 {
      FuncsUpToCounts(order - 1);
      assert FuncsUpTo(order) == FuncsUpTo(order - 1) + 2 * order + 1;
    }
  }

  lemma MulLe(a: int, b: int, c: nat)
    requires a <= b
    ensures a * c <= b * c
  {
  }

  /** The Kotlin `Int` product fits, and so equals the exact count, exactly below order 46340. */
  lemma FuncsUpToInIntRange(order: int)
    requires order >= -1
    ensures FuncsUpTo(order) <= Text.INT_MAX <==> order < 46340
  {
    var n := order + 1;
    if n <= 46340 {
      MulLe(n, 46340, n);
      MulLe(n, 46340, 46340);
    } else {
      MulLe(46341, n, n);
      MulLe(46341, n, 46341);
    }
  }

  /**
   * `evenFuncsUpTo`: an odd order is first lowered by one (Kotlin's `%`,
   * so only a positive odd order is), then (res + 1) * (res / 2 + 1).
   */
  function EvenFuncsUpTo(order: int): int
  {
    var res := if KotlinRem(order, 2) == 1 then order - 1 else order;
    (res + 1) * (KotlinDiv(res, 2) + 1)
  }

  /** The pairs (l, m) with 0 <= m <= l < n: l + 1 of each order l. */
  function Tri(n: nat): nat
  {
    if n == 0 then 0 else Tri(n - 1) + n
  }

  lemma {:induction false} TriClosed(n: nat)
    ensures 2 * Tri(n) == n * (n + 1)
  {
    if n > 0 {
      TriClosed(n - 1);
    }
  }

  lemma {:induction false} TriMonotone(a: nat, b: nat)
    requires a <= b
    ensures Tri(a) <= Tri(b)
    decreases b
  {
    if a < b {
      TriMonotone(a, b - 1);
    }
  }

  /**
   * An odd order counts as the even order below it, and an even order 2k
   * counts every pair 0 <= m <= l <= 2k.
   */
  lemma EvenFuncsUpToCounts(k: nat)
    ensures EvenFuncsUpTo(2 * k + 1) == EvenFuncsUpTo(2 * k)
    ensures EvenFuncsUpTo(2 * k) == Tri(2 * k + 1)
  {
    var n := 2 * k + 1;
    assert EvenFuncsUpTo(2 * k + 1) == n * (k + 1) by {
      assert KotlinRem(2 * k + 1, 2) == 1;
      assert KotlinDiv(2 * k, 2) == k;
    }
    assert EvenFuncsUpTo(2 * k) == n * (k + 1) by {
      assert KotlinRem(2 * k, 2) == 0;
      assert KotlinDiv(2 * k, 2) == k;
    }
    assert 2 * Tri(n) == 2 * (n * (k + 1)) by {
      TriClosed(n);
      MulDouble(n, k + 1);
    }
  }

  /** The Kotlin `Int` product fits, and so equals the exact count, exactly below order 65536. */
  lemma EvenFuncsUpToInIntRange(order: nat)
    ensures EvenFuncsUpTo(order) <= Text.INT_MAX <==> order < 65536
  {
    var k := order / 2;
    EvenFuncsUpToCounts(k);
    assert EvenFuncsUpTo(order) == (2 * k + 1) * (k + 1) by {
      assert KotlinRem(2 * k + 1, 2) == 1 && KotlinRem(2 * k, 2) == 0;
      assert KotlinDiv(2 * k, 2) == k;
    }
    if k <= 32767 {
      MulLe(2 * k + 1, 65535, k + 1);
      MulLe(k + 1, 32768, 65535);
    } else {
      MulLe(65537, 2 * k + 1, k + 1);
      MulLe(32769, k + 1, 65537);
    }
  }

  lemma MulDouble(a: int, c: int)
    ensures a * (2 * c) == 2 * (a * c)
  {
  }

  // ---------------------------------------------------------------------
  // arrayToCoefs
  // ---------------------------------------------------------------------

  /** A spherical coefficient: its (l, m) label and the complex value re + i im. */
  datatype Coef = Coef(l: int, m: int, re: real, im: real)

  /** The label after (l, m): m runs up to l, then l grows and m restarts at 0. */
  function NextLabel(lm: (int, int)): (int, int)
  {
    if lm.1 == lm.0 then (lm.0 + 1, 0) else (lm.0, lm.1 + 1)
  }

  /** The label arrayToCoefs gives its k-th coefficient. */
  function Label(k: nat): (int, int)
  {
    if k == 0 then (0, 0) else NextLabel(Label(k - 1))
  }

  /** Every label has 0 <= m <= l, and coefficient k sits right after the Tri(l) pairs of lower order. */
  lemma {:induction false} LabelIndex(k: nat)
    ensures 0 <= Label(k).1 <= Label(k).0
    ensures Tri(Label(k).0) + Label(k).1 == k
  {
    if k > 0 {
      LabelIndex(k - 1);
    }
  }

  /** Pair (l, m) is the label of coefficient Tri(l) + m. */
  lemma {:induction false} LabelOf(l: nat, m: nat)
    requires m <= l
    ensures Label(Tri(l) + m) == (l, m)
    decreases Tri(l) + m
  {
    if m > 0 {
      LabelOf(l, m - 1);
    } else if l > 0 {
      LabelOf(l - 1, l - 1);
      assert Tri(l) + m == Tri(l - 1) + (l - 1) + 1;
    }
  }

  /** Coefficients before index Tri(L + 1) carry l <= L. */
  lemma LabelBelow(L: nat, i: nat)
    requires i < Tri(L + 1)
    ensures Label(i).0 <= L
  {
    LabelIndex(i);
    if Label(i).0 > L {
      TriMonotone(L + 1, Label(i).0);
    }
  }

  /** Pair (l, m) with l <= L comes before index Tri(L + 1). */
  lemma LabelWithin(L: nat, l: nat, m: nat)
    requires m <= l <= L
    ensures Tri(l) + m < Tri(L + 1) && Label(Tri(l) + m) == (l, m)
  {
    TriMonotone(l + 1, L + 1);
    LabelOf(l, m);
  }

  /**
   * The first Tri(L + 1) coefficients, the 2 * evenFuncsUpTo(L) numbers
   * `fit` asks for when L is even, carry orders l <= L only (LabelWithin places
   * every pair 0 <= m <= l <= L among them) ...
   */
  lemma LayoutBelow(L: nat)
    ensures forall i: nat :: i < Tri(L + 1) ==> Label(i).0 <= L
  {
    forall i: nat | i < Tri(L + 1) ensures Label(i).0 <= L {
      LabelBelow(L, i);
    }
  }

  /** ... and end with (L, L). */
  lemma LayoutLast(L: nat)
    ensures Label(Tri(L + 1) - 1) == (L, L)
  {
    LabelOf(L, L);
    assert Tri(L + 1) - 1 == Tri(L) + L;
  }

  /** Coefficient k of `res` is (a[2k], a[2k + 1]) under the k-th label. */
  predicate Labelled(res: seq<Coef>, a: seq<real>)
  {
    2 * |res| <= |a| &&
    forall k :: 0 <= k < |res| ==> res[k] == Coef(Label(k).0, Label(k).1, a[2 * k], a[2 * k + 1])
  }

  lemma LabelledSnoc(res: seq<Coef>, a: seq<real>, l: int, m: int)
    requires Labelled(res, a) && 2 * |res| + 2 <= |a| && (l, m) == Label(|res|)
    ensures Labelled(res + [Coef(l, m, a[2 * |res|], a[2 * |res| + 1])], a)
  {
  }

  /**
   * `arrayToCoefs`: coefficient k is (arr[2k], arr[2k + 1]) with the k-th
   * label. An odd-sized array is an error.
   */
  method ArrayToCoefs(arr: array<real>) returns (r: Result<seq<Coef>>)
    ensures r.Err? <==> arr.Length % 2 != 0
    ensures r.Err? ==> r.msg == "coefficients size must be even"
    ensures r.Ok? ==> |r.value| == arr.Length / 2
    ensures r.Ok? ==> forall k :: 0 <= k < |r.value| ==>
      r.value[k] == Coef(Label(k).0, Label(k).1, arr[2 * k], arr[2 * k + 1])
  {
    if arr.Length % 2 != 0 {
      return Err("coefficients size must be even");
    }
    var res: seq<Coef> := [];
    var l, m := 0, 0;
    var counter := 0;
    while counter < arr.Length
      invariant 0 <= counter <= arr.Length && counter == 2 * |res|
      invariant (l, m) == Label(|res|)
      invariant Labelled(res, arr[..])
    {
      var re := arr[counter];
      var im := arr[counter + 1];
      LabelledSnoc(res, arr[..], l, m);
      res := res + [Coef(l, m, re, im)];
      counter := counter + 2;
      if m == l {
        l := l + 1;
        m := 0;
      } else {
        m := m + 1;
      }
    }
    return Ok(res);
  }

  // ---------------------------------------------------------------------
  // getFactor
  // ---------------------------------------------------------------------

  /** lo * (lo + 1) * ... * hi; 1 when the range is empty. */
  function Product(lo: int, hi: int): int
    decreases hi - lo
  {
    if hi < lo then 1 else Product(lo, hi - 1) * hi
  }

  function Factorial(n: nat): nat
  {
    if n == 0 then 1 else n * Factorial(n - 1)
  }

  lemma MulSwap(p: int, b: int, f: int)
    ensures p * b * f == b * (p * f)
  {
  }

  /** (a + 1) * ... * b == b! / a!. */
  lemma {:induction false} ProductFactorial(a: nat, b: nat)
    requires a <= b
    ensures Product(a + 1, b) * Factorial(a) == Factorial(b)
    ensures Product(a + 1, b) > 0
    decreases b - a
  {
    if a < b {
      ProductFactorial(a, b - 1);
      var p := Product(a + 1, b - 1);
      var f := Factorial(a);
      assert Product(a + 1, b) == p * b;
      MulSwap(p, b, f);
      assert Factorial(b) == b * Factorial(b - 1);
      assert p * b > 0;
    }
  }

  /**
   * The loop of `getFactor`: the product of the integers l - m + 1 .. l + m,
   * which for 0 <= m <= l is (l + m)! / (l - m)!.
   */
  method FactorProduct(l: int, m: int) returns (factor: int)
    ensures factor == Product(l - m + 1, l + m)
    ensures 0 <= m <= l ==> factor > 0 && factor * Factorial(l - m) == Factorial(l + m)
  {
    factor := 1;
    var i := l - m + 1;
    while i <= l + m
      invariant l - m + 1 <= i && (i <= l + m + 1 || i == l - m + 1)
      invariant factor == Product(l - m + 1, i - 1)
      decreases l + m + 1 - i
    {
      factor := factor * i;
      i := i + 1;
    }
    if 0 <= m <= l {
      ProductFactorial(l - m, l + m);
    }
  }

  // ---------------------------------------------------------------------
  // plgndrTest
  // ---------------------------------------------------------------------

  function Abs(x: real): real
  {
    if x < 0.0 then -x else x
  }

  /** P_m^m through the product (-1)^m (2m - 1)!! s^m, built one factor at a time. */
  function Pmm(m: nat, s: real): real
  {
    if m == 0 then 1.0 else Pmm(m - 1, s) * (-((2 * m - 1) as real) * s)
  }

  /**
   * One upward step of the recurrence: P_ll^m from p1 = P_{ll-1}^m and
   * p2 = P_{ll-2}^m.
   */
  function LegendreNext(x: real, ll: int, m: int, p1: real, p2: real): real
    requires ll > m
  {
    (x * (2 * ll - 1) as real * p1 - (ll + m - 1) as real * p2) / (ll - m) as real
  }

  /** Multiplied out: (ll - m) P_ll = x (2 ll - 1) p1 - (ll + m - 1) p2. */
  lemma LegendreNextTimes(x: real, ll: int, m: int, p1: real, p2: real)
    requires ll > m
    ensures (ll - m) as real * LegendreNext(x, ll, m, p1, p2)
      == x * (2 * ll - 1) as real * p1 - (ll + m - 1) as real * p2
  {
    var d := (ll - m) as real;
    var num := x * (2 * ll - 1) as real * p1 - (ll + m - 1) as real * p2;
    assert LegendreNext(x, ll, m, p1, p2) == num / d;
    DivCancel(num, d);
  }

  lemma DivCancel(num: real, d: real)
    requires d != 0.0
    ensures d * (num / d) == num
  {
  }

  /**
   * The associated Legendre value P_ll^m(x) as plgndrTest computes it:
   * P_m^m, then x (2m + 1) P_m^m, then the upward recurrence in ll; `s` is
   * the square root of (1 - x)(1 + x).
   */
  function Legendre(ll: nat, m: nat, x: real, s: real): real
    requires m <= ll
    decreases ll
  {
    if ll == m then Pmm(m, s)
    else if ll == m + 1 then x * (2 * m + 1) as real * Pmm(m, s)
    else LegendreNext(x, ll, m, Legendre(ll - 1, m, x, s), Legendre(ll - 2, m, x, s))
  }

  /** The two starting values: P_m^m and x (2m + 1) P_m^m. */
  lemma LegendreLow(m: nat, x: real, s: real)
    ensures Legendre(m, m, x, s) == Pmm(m, s)
    ensures Legendre(m + 1, m, x, s) == x * (2 * m + 1) as real * Pmm(m, s)
  {
  }

  /** For ll >= m + 2, P_ll is one recurrence step from the two values below it. */
  lemma LegendreUnfold(ll: nat, m: nat, x: real, s: real)
    requires m + 2 <= ll
    ensures Legendre(ll, m, x, s) == LegendreNext(x, ll, m, Legendre(ll - 1, m, x, s), Legendre(ll - 2, m, x, s))
  {
  }

  /** A real n != 0 with n * a == n * b has a == b. */
  lemma CancelFactor(a: real, b: real, n: real)
    requires n != 0.0 && n * a == n * b
    ensures a == b
  {
    assert n * (a - b) == 0.0;
  }

  /** At x = +-1 the recurrence for m = 0 keeps the pattern P_l = x^l. */
  lemma EndStep(l: nat, x: real, e: real, p: real, p1: real, p2: real)
    requires l >= 2 && (x == 1.0 || x == -1.0)
    requires p1 == x * e && p2 == e
    requires p == LegendreNext(x, l, 0, p1, p2)
    ensures p == e
  {
    LegendreNextTimes(x, l, 0, p1, p2);
    var n := l as real;
    assert x * x == 1.0;
    assert x * (2 * l - 1) as real * p1 == (2.0 * n - 1.0) * e;
    assert n * p == n * e;
    CancelFactor(p, e, n);
  }

  /** The Legendre polynomials P_l = P_l^0 are 1 at x = 1. */
  lemma {:induction false} LegendreAtOne(l: nat, s: real)
    ensures Legendre(l, 0, 1.0, s) == 1.0
  {
    if l >= 2 {
      LegendreAtOne(l - 1, s);
      LegendreAtOne(l - 2, s);
      LegendreUnfold(l, 0, 1.0, s);
      EndStep(l, 1.0, 1.0, Legendre(l, 0, 1.0, s), Legendre(l - 1, 0, 1.0, s), Legendre(l - 2, 0, 1.0, s));
    }
  }

  /** (-1)^l. */
  function Sign(l: nat): (r: real)
    ensures r == 1.0 || r == -1.0
  {
    if l % 2 == 0 then 1.0 else -1.0
  }

  lemma SignAlternates(l: nat)
    requires l >= 2
    ensures Sign(l - 1) == -Sign(l) && Sign(l - 2) == Sign(l)
  {
  }

  /** The Legendre polynomials P_l = P_l^0 are (-1)^l at x = -1. */
  lemma {:induction false} LegendreAtMinusOne(l: nat, s: real)
    ensures Legendre(l, 0, -1.0, s) == Sign(l)
  {
    if l >= 2 {
      LegendreAtMinusOne(l - 1, s);
      LegendreAtMinusOne(l - 2, s);
      LegendreUnfold(l, 0, -1.0, s);
      SignAlternates(l);
      EndStep(l, -1.0, Sign(l), Legendre(l, 0, -1.0, s), Legendre(l - 1, 0, -1.0, s), Legendre(l - 2, 0, -1.0, s));
    }
  }

  /**
   * `plgndrTest`: rejects m < 0, m > l and |x| > 1; otherwise P_l^m(x) by
   * the recurrence. The square root is a parameter.
   */
  method PlgndrTest(l: int, m: int, x: real, sqrt: real -> real) returns (r: Result<real>)
    ensures r.Err? <==> m < 0 || m > l || Abs(x) > 1.0
    ensures r.Ok? ==> r.value == Legendre(l, m, x, sqrt((1.0 - x) * (1.0 + x)))
  {
    if m < 0 || m > l || Abs(x) > 1.0 {
      return Err("Bad arguments in routine plgndr");
    }
    var somx2 := sqrt((1.0 - x) * (1.0 + x));
    var pmm := 1.0;
    if m > 0 {
      var fact := 1.0;
      for i := 1 to m + 1
        invariant pmm == Pmm(i - 1, somx2)
        invariant fact == (2 * i - 1) as real
      {
        pmm := pmm * (-fact * somx2);
        fact := fact + 2.0;
      }
    }
    if l == m {
      return Ok(pmm);
    }
    var pmmp1 := x * (2 * m + 1) as real * pmm;
    if l == m + 1 {
      return Ok(pmmp1);
    }
    var pll := 0.0;
    LegendreLow(m, x, somx2);
    for ll := m + 2 to l + 1
      invariant pmm == Legendre(ll - 2, m, x, somx2)
      invariant pmmp1 == Legendre(ll - 1, m, x, somx2)
      invariant ll > m + 2 ==> pll == pmmp1
    {
      pll := LegendreNext(x, ll, m, pmmp1, pmm);
      LegendreUnfold(ll, m, x, somx2);
      pmm := pmmp1;
      pmmp1 := pll;
    }
    return Ok(pll);
  }
}
