/** Numeric helpers shared by the dashboard and the backend model. */
module Numbers {

  /** A double-precision value as the dashboard code sees it: finite, an infinity, or NaN. */
  datatype Num = NaN | NegInf | Fin(r: real) | PosInf

  function Max(a: real, b: real): (m: real)
    ensures m >= a && m >= b && (m == a || m == b)
  {
    if a >= b then a else b
  }

  function Min(a: real, b: real): (m: real)
    ensures m <= a && m <= b && (m == a || m == b)
  {
    if a <= b then a else b
  }

  /** `Math.min(Math.max(x, lo), hi)`: clamp into [lo, hi] when lo <= hi. */
  function Clamp(x: real, lo: real, hi: real): (c: real)
    ensures lo <= hi ==> lo <= c <= hi
    ensures lo <= x <= hi ==> c == x
  {
    Min(Max(x, lo), hi)
  }

  /** JavaScript's `a <= b`: false as soon as either side is NaN. */
  predicate NumLe(a: Num, b: Num)
  {
    match (a, b)
    case (NaN, _) => false
    case (_, NaN) => false
    case (NegInf, _) => true
    case (_, PosInf) => true
    case (Fin(x), Fin(y)) => x <= y
    case _ => false
  }

  /** `Math.max(a, b)`: NaN if either argument is NaN, else the larger one. */
  function JsMax(a: Num, b: Num): (m: Num)
    ensures m == NaN <==> (a == NaN || b == NaN)
    ensures m != NaN ==> NumLe(a, m) && NumLe(b, m) && (m == a || m == b)
  {
    if a == NaN || b == NaN then NaN
    else if NumLe(b, a) then a
    else b
  }

  /** `Math.min(a, b)`: NaN if either argument is NaN, else the smaller one. */
  function JsMin(a: Num, b: Num): (m: Num)
    ensures m == NaN <==> (a == NaN || b == NaN)
    ensures m != NaN ==> NumLe(m, a) && NumLe(m, b) && (m == a || m == b)
  {
    if a == NaN || b == NaN then NaN
    else if NumLe(a, b) then a
    else b
  }

  /**
   * `Math.min(Math.max(x, lo), hi)` for a parsed number `x` that is not NaN
   * and finite bounds: always a finite value, inside [lo, hi] when lo <= hi.
   */
  function ClampNum(x: Num, lo: real, hi: real): (c: real)
    requires x != NaN
    ensures JsMin(JsMax(x, Fin(lo)), Fin(hi)) == Fin(c)
    ensures lo <= hi ==> lo <= c <= hi
    ensures x.Fin? && lo <= x.r <= hi ==> c == x.r
  {
    match x
    case Fin(v) => Clamp(v, lo, hi)
    case NegInf => Min(lo, hi)
    case PosInf => hi
  }

  /** Left-to-right sum, as `reduce((acc, v) => acc + v, 0)` computes it. */
  function Sum(s: seq<real>): real
  {
    if s == [] then 0.0 else Sum(s[..|s| - 1]) + s[|s| - 1]
  }

  /** The arithmetic mean, 0 on an empty sequence. */
  function Mean(s: seq<real>): real
  {
    if |s| == 0 then 0.0 else Sum(s) / (|s| as real)
  }

  lemma {:induction false} SumBounds(s: seq<real>, lo: real, hi: real)
    requires forall i :: 0 <= i < |s| ==> lo <= s[i] <= hi
    ensures (|s| as real) * lo <= Sum(s) <= (|s| as real) * hi
  {
    if s != [] {
      SumBounds(s[..|s| - 1], lo, hi);
    }
  }

  /** The mean of values that all lie in [lo, hi] lies in [lo, hi] too. */
  lemma MeanWithinBounds(s: seq<real>, lo: real, hi: real)
    requires |s| > 0
    requires forall i :: 0 <= i < |s| ==> lo <= s[i] <= hi
    ensures lo <= Mean(s) <= hi
  {
    SumBounds(s, lo, hi);
    var n := |s| as real;
    assert Sum(s) / n >= lo by { assert Sum(s) >= n * lo; }
    assert Sum(s) / n <= hi by { assert Sum(s) <= n * hi; }
  }

  lemma {:induction false} SumAppend(s: seq<real>, t: seq<real>)
    ensures Sum(s + t) == Sum(s) + Sum(t)
  {
    if t == [] {
      assert s + t == s;
    } else {
      assert (s + t)[..|s + t| - 1] == s + t[..|t| - 1];
      SumAppend(s, t[..|t| - 1]);
    }
  }

  /** floor(log10(x)) for x >= 1, computed exactly by repeated division. */
  function FloorLog10(x: real): (e: nat)
    requires x >= 1.0
    ensures Pow10(e) <= x < 10.0 * Pow10(e)
    decreases x.Floor
  {
    if x < 10.0 then 0 else FloorLog10(x / 10.0) + 1
  }

  /** 10 raised to a natural power. */
  function Pow10(e: nat): (p: real)
    ensures p >= 1.0
  {
    if e == 0 then 1.0 else 10.0 * Pow10(e - 1)
  }

  lemma {:induction false} Pow10Monotone(a: nat, b: nat)
    requires a <= b
    ensures Pow10(a) <= Pow10(b)
  {
    if a < b {
      Pow10Monotone(a, b - 1);
    }
  }

  /** floor(log10 x) is monotone: x <= y implies FloorLog10(x) <= FloorLog10(y). */
  lemma FloorLog10Monotone(x: real, y: real)
    requires 1.0 <= x <= y
    ensures FloorLog10(x) <= FloorLog10(y)
  {
    var a, b := FloorLog10(x), FloorLog10(y);
    assert Pow10(b + 1) == 10.0 * Pow10(b);
    Pow10Order(a, b);
  }

  /** A power of 10 below the next power after `10^b` has an exponent of at most `b`. */
  lemma Pow10Order(a: nat, b: nat)
    ensures Pow10(a) < Pow10(b + 1) ==> a <= b
  {
    if b + 1 <= a {
      Pow10Monotone(b + 1, a);
    }
  }

  /** `math.floor(x * 10000) / 10000`: round down at the fourth decimal. */
  function Floor4(x: real): (f: real)
    ensures f <= x < f + 0.0001
  {
    (x * 10000.0).Floor as real / 10000.0
  }

  /** `math.ceil(x * 10000) / 10000`: round up at the fourth decimal. */
  function Ceil4(x: real): (c: real)
    ensures c - 0.0001 < x <= c
  {
    -((-x * 10000.0).Floor as real) / 10000.0
  }
}
