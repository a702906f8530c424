/** Symmetric group-wise quantization and nibble packing (edgerag/core/quant.py), over exact reals. */
module Quant {
  import opened Common

  // ------------------------------------------------------------------------------------ rounding

  /** `torch.round`: to nearest, ties to even. */
  function RoundHalfEven(x: real): int {
    var f := x.Floor;
    var rest := x - f as real;
    if rest < 0.5 then f
    else if rest > 0.5 then f + 1
    else if f % 2 == 0 then f else f + 1
  }

  lemma RoundIsNear(x: real)
    ensures -0.5 <= RoundHalfEven(x) as real - x <= 0.5
  {
  }

  /** It is the nearest integer, and of two that are equally near the even one. */
  lemma RoundIs(x: real, n: int)
    ensures Abs(RoundHalfEven(x) as real - x) <= Abs(n as real - x)
    ensures n != RoundHalfEven(x) && Abs(RoundHalfEven(x) as real - x) == Abs(n as real - x) ==> RoundHalfEven(x) % 2 == 0
  {
    var f := x.Floor;
    assert n <= f || n >= f + 1;
    if n <= f {
      assert n as real <= f as real;
    } else {
      assert n as real >= (f + 1) as real;
    }
  }

  /** Rounding does not leave an integer range. */
  lemma RoundStaysWithin(x: real, n: int)
    requires n >= 0 && -(n as real) <= x <= n as real
    ensures -n <= RoundHalfEven(x) <= n
  {
    RoundIsNear(x);
    var r := RoundHalfEven(x);
    assert (-n - 1) as real < r as real < (n + 1) as real;
  }

  function Clamp(x: int, lo: int, hi: int): int {
    Max(lo, Min(x, hi))
  }

  function Abs(x: real): (r: real)
    ensures r >= 0.0
  {
    if x < 0.0 then -x else x
  }

  // --------------------------------------------------------------------------------- quantizing

  function QMax(bits: nat): (q: int)
    ensures q > 0
  {
    if bits == 4 then 7 else 127
  }

  function Pow2(n: nat): nat {
    if n == 0 then 1 else 2 * Pow2(n - 1)
  }

  /** The codes are the symmetric range of a signed integer of that many bits. */
  lemma QMaxIs(bits: nat)
    requires bits == 4 || bits == 8
    ensures QMax(bits) == Pow2(bits - 1) - 1
  {
    assert Pow2(3) == 8 && Pow2(5) == 4 * Pow2(3) && Pow2(7) == 4 * Pow2(5);
  }

  /** Largest magnitude among `row[lo..hi]`. */
  function AMax(row: seq<real>, lo: nat, hi: nat): (m: real)
    requires lo <= hi <= |row|
    ensures m >= 0.0
    ensures forall j :: lo <= j < hi ==> Abs(row[j]) <= m
    ensures (m == 0.0 && lo <= hi) || exists j :: lo <= j < hi && Abs(row[j]) == m
    decreases hi - lo
  {
    if lo == hi then 0.0
    else
      var m := AMax(row, lo, hi - 1);
      if m < Abs(row[hi - 1]) then Abs(row[hi - 1]) else m
  }

  lemma GroupWithin(n: nat, g: nat, j: nat)
    requires g > 0 && n % g == 0 && j < n
    ensures 0 <= j / g < n / g
    ensures 0 <= (j / g) * g <= j < (j / g) * g + g <= n
  {
    DivBounds(n, g);
    DivBounds(j, g);
    assert (n / g) * g == n;
    Located(j, n / g, g);
    MulLe(j / g + 1, n / g, g);
    assert (j / g + 1) * g == (j / g) * g + g;
  }

  /** Largest magnitude in the group of column `j`, which is the columns with the same `j / g`. */
  function GroupAMax(row: seq<real>, g: nat, j: nat): (m: real)
    requires g > 0 && |row| % g == 0 && j < |row|
    ensures Abs(row[j]) <= m
  {
    GroupWithin(|row|, g, j);
    AMax(row, (j / g) * g, (j / g) * g + g)
  }

  /** Groups run along the input dimension: the maximum is over exactly the columns of the group. */
  lemma GroupAMaxIs(row: seq<real>, g: nat, j: nat)
    requires g > 0 && |row| % g == 0 && j < |row|
    ensures forall k :: 0 <= k < |row| && k / g == j / g ==> Abs(row[k]) <= GroupAMax(row, g, j)
    ensures exists k :: 0 <= k < |row| && k / g == j / g && Abs(row[k]) == GroupAMax(row, g, j)
  {
    hide Abs;
    GroupWithin(|row|, g, j);
    var lo := (j / g) * g;
    AMaxIs(row, lo, lo + g, GroupAMax(row, g, j));
    forall k | 0 <= k < |row| && k / g == j / g ensures Abs(row[k]) <= GroupAMax(row, g, j) {
      SameGroup(g, j, k);
    }
    var k :| lo <= k < lo + g && Abs(row[k]) == GroupAMax(row, g, j);
    SameGroup(g, j, k);
  }

  lemma AMaxIs(row: seq<real>, lo: nat, hi: nat, m: real)
    requires lo < hi <= |row| && m == AMax(row, lo, hi)
    ensures forall j :: lo <= j < hi ==> Abs(row[j]) <= m
    ensures exists j :: lo <= j < hi && Abs(row[j]) == m
  {
    assert Abs(row[lo]) <= m;
  }

  lemma SameGroup(g: nat, j: nat, k: nat)
    requires g > 0
    ensures k / g == j / g <==> (j / g) * g <= k < (j / g) * g + g
  {
    DivBounds(k, g);
    var q := j / g;
    assert (q + 1) * g == q * g + g;
    if q * g <= k < q * g + g {
      DivUnique(k, g, q);
    }
  }

  /** The scale of the group that column `j` is in. */
  function ScaleAt(row: seq<real>, g: nat, qmax: int, j: nat): (s: real)
    requires g > 0 && |row| % g == 0 && j < |row| && qmax > 0
    ensures s > 0.0
  {
    var amax := GroupAMax(row, g, j);
    if amax > 0.0 then amax / qmax as real else 1.0
  }

  function Level(w: real, scale: real): int
    requires scale > 0.0
  {
    RoundHalfEven(w / scale)
  }

  function CodeAt(row: seq<real>, g: nat, qmax: int, j: nat): int
    requires g > 0 && |row| % g == 0 && j < |row| && qmax > 0
  {
    Clamp(Level(row[j], ScaleAt(row, g, qmax, j)), -qmax, qmax)
  }

  function RowCodes(row: seq<real>, g: nat, qmax: int): (r: seq<int>)
    requires g > 0 && |row| % g == 0 && qmax > 0
    ensures |r| == |row| && forall j :: 0 <= j < |row| ==> r[j] == CodeAt(row, g, qmax, j)
  {
    seq(|row|, j requires 0 <= j < |row| => CodeAt(row, g, qmax, j))
  }

  lemma GroupStart(n: nat, g: nat, k: nat)
    requires g > 0 && n % g == 0 && k < n / g
    ensures 0 <= k * g < n && (k * g) / g == k
  {
    DivBounds(n, g);
    MulLe(k + 1, n / g, g);
    assert (k + 1) * g == k * g + g;
    DivUnique(k * g, g, k);
  }

  function RowScales(row: seq<real>, g: nat, qmax: int): (r: seq<real>)
    requires g > 0 && |row| % g == 0 && qmax > 0
    ensures |r| == |row| / g
    ensures forall j :: 0 <= j < |row| ==> 0 <= j / g < |r| && r[j / g] == ScaleAt(row, g, qmax, j)
  {
    DivBounds(|row|, g);
    var r := seq(|row| / g, k requires 0 <= k < |row| / g => GroupStart(|row|, g, k); ScaleAt(row, g, qmax, k * g));
    assert forall j :: 0 <= j < |row| ==> 0 <= j / g < |r| && r[j / g] == ScaleAt(row, g, qmax, j) by {
      forall j | 0 <= j < |row| ensures 0 <= j / g < |r| && r[j / g] == ScaleAt(row, g, qmax, j) {
        GroupWithin(|row|, g, j);
        GroupStart(|row|, g, j / g);
      }
    }
    r
  }

  predicate Rect(weight: seq<seq<real>>, cols: nat) {
    forall i :: 0 <= i < |weight| ==> |weight[i]| == cols
  }

  function Dequantize(codes: seq<int>, scales: seq<real>, g: nat): (r: seq<real>)
    requires g > 0
    ensures |r| == |codes|
    ensures forall j :: 0 <= j < |codes| && 0 <= j / g < |scales| ==> r[j] == codes[j] as real * scales[j / g]
  {
    seq(|codes|, j requires 0 <= j < |codes| => if 0 <= j / g < |scales| then codes[j] as real * scales[j / g] else 0.0)
  }

  lemma ScaledWithin(w: real, amax: real, q: int)
    requires amax > 0.0 && q > 0 && -amax <= w <= amax
    ensures amax / q as real > 0.0
    ensures -(q as real) <= w / (amax / q as real) <= q as real
  {
    var s := amax / q as real;
    assert s * q as real == amax;
    var x := w / s;
    assert x * s == w;
    Bounded(x, s, q as real);
  }

  lemma Bounded(x: real, s: real, q: real)
    requires s > 0.0 && -(s * q) <= x * s <= s * q
    ensures -q <= x <= q
  {
    if x > q {
      MulStrict(x, q, s);
    } else if x < -q {
      MulStrict(-q, x, s);
    }
  }

  lemma MulStrict(a: real, b: real, s: real)
    requires a > b && s > 0.0
    ensures a * s > b * s
  {
    assert (a - b) * s > 0.0;
  }

  lemma HalfScale(w: real, s: real, c: int)
    requires s > 0.0 && -0.5 <= c as real - w / s <= 0.5
    ensures Abs(c as real * s - w) <= s / 2.0
  {
    var x := w / s;
    assert x * s == w;
    var e := c as real - x;
    assert c as real * s - w == e * s;
    assert e * s <= 0.5 * s by { if e > 0.5 { } else { assert (0.5 - e) * s >= 0.0; } }
    assert e * s >= -0.5 * s by { assert (e + 0.5) * s >= 0.0; }
  }

  lemma LevelWithin(w: real, amax: real, q: int)
    requires amax >= 0.0 && q > 0 && Abs(w) <= amax
    ensures amax > 0.0 ==> amax / q as real > 0.0 && -q <= Level(w, amax / q as real) <= q
    ensures amax == 0.0 ==> Level(w, 1.0) == 0
  {
    hide RoundHalfEven;
    if amax > 0.0 {
      ScaledWithin(w, amax, q);
      RoundStaysWithin(w / (amax / q as real), q);
    } else {
      assert w / 1.0 == 0.0;
      RoundStaysWithin(0.0, 0);
    }
  }

  /** The clamp never fires: the group's own maximum already bounds every rounded level. */
  lemma ClampIdle(row: seq<real>, g: nat, qmax: int, j: nat)
    requires g > 0 && |row| % g == 0 && j < |row| && qmax > 0
    ensures -qmax <= Level(row[j], ScaleAt(row, g, qmax, j)) <= qmax
    ensures CodeAt(row, g, qmax, j) == Level(row[j], ScaleAt(row, g, qmax, j))
  {
    hide Level;
    LevelWithin(row[j], GroupAMax(row, g, j), qmax);
  }

  lemma LevelNear(w: real, scale: real)
    requires scale > 0.0
    ensures Off(w, Level(w, scale), scale) <= scale / 2.0
  {
    hide RoundHalfEven;
    RoundIsNear(w / scale);
    HalfScale(w, scale, Level(w, scale));
  }

  /** Every reconstructed weight is within half its group's scale, which is the group's largest
      magnitude over twice the number of levels; a group of zeros comes back exactly. */
  lemma RoundTripError(row: seq<real>, g: nat, qmax: int, j: nat)
    requires g > 0 && |row| % g == 0 && j < |row| && qmax > 0
    ensures var back := Dequantize(RowCodes(row, g, qmax), RowScales(row, g, qmax), g);
      && Abs(back[j] - row[j]) <= ScaleAt(row, g, qmax, j) / 2.0
      && var amax := GroupAMax(row, g, j);
      if amax == 0.0 then back[j] == row[j] else Abs(back[j] - row[j]) <= amax / (2.0 * qmax as real)
  {
    hide Level, CodeAt, ScaleAt, Dequantize, GroupAMax;
    WithinHalfScale(row, g, qmax, j);
    var amax := GroupAMax(row, g, j);
    ScaleIs(row, g, qmax, j, amax);
    if amax == 0.0 {
      ZeroGroup(row, g, qmax, j);
    } else {
      HalfOf(amax, qmax as real);
    }
  }

  lemma BackIs(row: seq<real>, g: nat, qmax: int, j: nat)
    requires g > 0 && |row| % g == 0 && j < |row| && qmax > 0
    ensures Dequantize(RowCodes(row, g, qmax), RowScales(row, g, qmax), g)[j] == CodeAt(row, g, qmax, j) as real * ScaleAt(row, g, qmax, j)
  {
    hide CodeAt, ScaleAt, RowCodes, RowScales, Dequantize;
    var codes, scales := RowCodes(row, g, qmax), RowScales(row, g, qmax);
    assert codes[j] == CodeAt(row, g, qmax, j) && 0 <= j / g < |scales| && scales[j / g] == ScaleAt(row, g, qmax, j);
  }

  lemma WithinHalfScale(row: seq<real>, g: nat, qmax: int, j: nat)
    requires g > 0 && |row| % g == 0 && j < |row| && qmax > 0
    ensures Abs(Dequantize(RowCodes(row, g, qmax), RowScales(row, g, qmax), g)[j] - row[j]) <= ScaleAt(row, g, qmax, j) / 2.0
  {
    hide Level, CodeAt, ScaleAt, Dequantize, Off, Abs;
    ClampIdle(row, g, qmax, j);
    LevelNear(row[j], ScaleAt(row, g, qmax, j));
    BackOff(row, g, qmax, j);
  }

  lemma BackOff(row: seq<real>, g: nat, qmax: int, j: nat)
    requires g > 0 && |row| % g == 0 && j < |row| && qmax > 0
    ensures Abs(Dequantize(RowCodes(row, g, qmax), RowScales(row, g, qmax), g)[j] - row[j]) == Off(row[j], CodeAt(row, g, qmax, j), ScaleAt(row, g, qmax, j))
  {
    hide CodeAt, ScaleAt, Dequantize, Abs;
    BackIs(row, g, qmax, j);
  }

  lemma ZeroGroup(row: seq<real>, g: nat, qmax: int, j: nat)
    requires g > 0 && |row| % g == 0 && j < |row| && qmax > 0
    requires GroupAMax(row, g, j) == 0.0
    ensures Dequantize(RowCodes(row, g, qmax), RowScales(row, g, qmax), g)[j] == row[j]
  {
    hide Level, CodeAt, ScaleAt, Dequantize, GroupAMax;
    assert Abs(row[j]) <= 0.0;
    ScaleIs(row, g, qmax, j, 0.0);
    ClampIdle(row, g, qmax, j);
    LevelWithin(row[j], 0.0, qmax);
    BackIs(row, g, qmax, j);
  }

  lemma ScaleIs(row: seq<real>, g: nat, qmax: int, j: nat, amax: real)
    requires g > 0 && |row| % g == 0 && j < |row| && qmax > 0
    requires amax == GroupAMax(row, g, j)
    ensures ScaleAt(row, g, qmax, j) == if amax > 0.0 then amax / qmax as real else 1.0
  {
  }

  lemma HalfOf(a: real, q: real)
    requires q > 0.0
    ensures (a / q) / 2.0 == a / (2.0 * q)
  {
    var x := a / q;
    assert x * q == a;
    assert (x / 2.0) * (2.0 * q) == a;
  }

  /** How far level `c` is from a weight. */
  function Off(w: real, c: int, scale: real): real {
    Abs(c as real * scale - w)
  }

  /** The code of a weight is the level nearest to it, and of two that are equally near the even one. */
  lemma CodeIsNearest(row: seq<real>, g: nat, qmax: int, j: nat, n: int)
    requires g > 0 && |row| % g == 0 && j < |row| && qmax > 0
    ensures var c, s := CodeAt(row, g, qmax, j), ScaleAt(row, g, qmax, j);
      Off(row[j], c, s) <= Off(row[j], n, s) && (n != c && Off(row[j], c, s) == Off(row[j], n, s) ==> c % 2 == 0)
  {
    hide ScaleAt, RoundHalfEven, CodeAt, Abs, Off;
    var s, c := ScaleAt(row, g, qmax, j), CodeAt(row, g, qmax, j);
    ClampIdle(row, g, qmax, j);
    RoundIs(row[j] / s, n);
    ScaledDistance(c, row[j], s);
    ScaledDistance(n, row[j], s);
    Ordered(Abs(c as real - row[j] / s), Abs(n as real - row[j] / s), s);
  }

  lemma Ordered(a: real, b: real, s: real)
    requires s > 0.0 && a <= b
    ensures a * s <= b * s && (a * s == b * s ==> a == b)
  {
    if a < b {
      MulStrict(b, a, s);
    }
  }

  lemma ScaledDistance(c: int, w: real, s: real)
    requires s > 0.0
    ensures Off(w, c, s) == Abs(c as real - w / s) * s
  {
    var x := w / s;
    assert x * s == w;
    assert c as real * s - w == (c as real - x) * s;
    SignOf(c as real - x, s);
  }

  lemma SignOf(e: real, s: real)
    requires s > 0.0
    ensures Abs(e * s) == Abs(e) * s
  {
    if e < 0.0 {
      assert e * s < 0.0;
    } else {
      assert e * s >= 0.0;
    }
  }

  /** The largest magnitude of a group takes the largest code and comes back exactly: the scale is no coarser
      and no finer than that. */
  lemma PeakExact(row: seq<real>, g: nat, qmax: int, j: nat)
    requires g > 0 && |row| % g == 0 && j < |row| && qmax > 0 && Abs(row[j]) == GroupAMax(row, g, j)
    ensures row[j] > 0.0 ==> CodeAt(row, g, qmax, j) == qmax
    ensures row[j] < 0.0 ==> CodeAt(row, g, qmax, j) == -qmax
    ensures Dequantize(RowCodes(row, g, qmax), RowScales(row, g, qmax), g)[j] == row[j]
  {
    hide CodeAt, ScaleAt, Dequantize, GroupAMax, RowCodes, RowScales, Level;
    var w, c, s := row[j], CodeAt(row, g, qmax, j), ScaleAt(row, g, qmax, j);
    if w == 0.0 {
      ZeroGroup(row, g, qmax, j);
    } else {
      ScaleIs(row, g, qmax, j, Abs(w));
      ClampIdle(row, g, qmax, j);
      BackIs(row, g, qmax, j);
      PeakLevel(w, s, qmax);
      PeakBack(w, s, qmax, c, Dequantize(RowCodes(row, g, qmax), RowScales(row, g, qmax), g)[j]);
    }
  }

  lemma PeakLevel(w: real, s: real, q: int)
    requires q > 0 && w != 0.0 && s == Abs(w) / q as real
    ensures s > 0.0 && Level(w, s) == if w > 0.0 then q else -q
  {
    var r := q as real;
    assert s * r == Abs(w);
    assert s > 0.0;
    if w > 0.0 {
      assert w / s == r by { assert r * s == w; }
    } else {
      assert w / s == -r by { assert (-r) * s == w; }
    }
  }

  lemma PeakBack(w: real, s: real, q: int, c: int, back: real)
    requires q > 0 && w != 0.0 && s == Abs(w) / q as real && c == (if w > 0.0 then q else -q) && back == c as real * s
    ensures back == w
  {
    var r := q as real;
    assert s * r == Abs(w);
    if w < 0.0 {
      assert (-r) * s == -(r * s);
    }
  }
}
