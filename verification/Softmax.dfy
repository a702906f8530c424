/** Softmax attention over the reals, and the online recurrence that computes it block by block
    (edgerag/cache/fused.py). `exp` is any function with the laws below. */
module Softmax {
  import opened Common
  import opened Tensors

  ghost predicate ExpLaws(exp: real -> real) {
    && exp(0.0) == 1.0
    && (forall x :: exp(x) > 0.0)
    && (forall x, y :: exp(x + y) == exp(x) * exp(y))
    && (forall x, y :: x <= y ==> exp(x) <= exp(y))
  }

  function MaxReal(a: real, b: real): real {
    if a < b then b else a
  }

  function MaxOf(s: seq<real>): (m: real)
    requires s != []
    ensures m in s && forall x :: x in s ==> x <= m
  {
    if |s| == 1 then s[0]
    else
      var m := MaxOf(s[1..]);
      assert s == [s[0]] + s[1..];
      MaxReal(s[0], m)
  }

  /** The softmax denominator relative to a reference score `m`. */
  function Weight(exp: real -> real, s: seq<real>, m: real): real {
    if s == [] then 0.0 else exp(s[0] - m) + Weight(exp, s[1..], m)
  }

  /** One component of the numerator relative to `m`. */
  function Mix(exp: real -> real, s: seq<real>, v: seq<real>, m: real): real
    requires |s| == |v|
  {
    if s == [] then 0.0 else exp(s[0] - m) * v[0] + Mix(exp, s[1..], v[1..], m)
  }

  lemma {:induction false} WeightJoin(exp: real -> real, s: seq<real>, t: seq<real>, m: real)
    ensures Weight(exp, s + t, m) == Weight(exp, s, m) + Weight(exp, t, m)
  {
    if s == [] {
      assert s + t == t;
    } else {
      assert (s + t)[1..] == s[1..] + t;
      WeightJoin(exp, s[1..], t, m);
    }
  }

  lemma {:induction false} MixJoin(exp: real -> real, s: seq<real>, v: seq<real>, t: seq<real>, w: seq<real>, m: real)
    requires |s| == |v| && |t| == |w|
    ensures Mix(exp, s + t, v + w, m) == Mix(exp, s, v, m) + Mix(exp, t, w, m)
  {
    if s == [] {
      assert s + t == t && v + w == w;
    } else {
      assert (s + t)[1..] == s[1..] + t && (v + w)[1..] == v[1..] + w;
      MixJoin(exp, s[1..], v[1..], t, w, m);
    }
  }

  /** Changing the reference score rescales by one factor: what `alpha` does. */
  lemma {:induction false} WeightShift(exp: real -> real, s: seq<real>, m: real, m': real)
    requires ExpLaws(exp)
    ensures Weight(exp, s, m') == Weight(exp, s, m) * exp(m - m')
  {
    hide ExpLaws;
    if s != [] {
      WeightShift(exp, s[1..], m, m');
      ExpShift(exp, s[0], m, m');
      Distribute(exp(s[0] - m), Weight(exp, s[1..], m), exp(m - m'));
    }
  }

  lemma ExpShift(exp: real -> real, x: real, m: real, m': real)
    requires ExpLaws(exp)
    ensures exp(x - m') == exp(x - m) * exp(m - m')
  {
    assert x - m' == (x - m) + (m - m');
  }

  lemma Distribute(a: real, b: real, c: real)
    ensures (a + b) * c == a * c + b * c
  {
  }

  lemma {:induction false} MixShift(exp: real -> real, s: seq<real>, v: seq<real>, m: real, m': real)
    requires ExpLaws(exp) && |s| == |v|
    ensures Mix(exp, s, v, m') == Mix(exp, s, v, m) * exp(m - m')
  {
    hide ExpLaws;
    if s != [] {
      MixShift(exp, s[1..], v[1..], m, m');
      ExpShift(exp, s[0], m, m');
      var e, f, g := exp(s[0] - m), exp(m - m'), v[0];
      Commute(e, f, g);
      Distribute(e * g, Mix(exp, s[1..], v[1..], m), f);
    }
  }

  lemma Commute(e: real, f: real, g: real)
    ensures (e * f) * g == (e * g) * f
  {
  }

  lemma {:induction false} WeightPositive(exp: real -> real, s: seq<real>, m: real)
    requires ExpLaws(exp)
    ensures Weight(exp, s, m) >= 0.0 && (s != [] ==> Weight(exp, s, m) > 0.0)
  {
    if s != [] {
      WeightPositive(exp, s[1..], m);
    }
  }

  /** Relative to the maximum, every weight is at most one... */
  lemma WeightsAtMostOne(exp: real -> real, s: seq<real>, m: real)
    requires ExpLaws(exp) && forall x :: x in s ==> x <= m
    ensures forall i :: 0 <= i < |s| ==> 0.0 < exp(s[i] - m) <= 1.0
  {
    hide ExpLaws;
    forall i | 0 <= i < |s| ensures 0.0 < exp(s[i] - m) <= 1.0 {
      assert s[i] in s;
      AtMostOne(exp, s[i] - m);
    }
  }

  /** ...and the denominator is at least one, so clamping it from below by anything up to one changes
      nothing. */
  lemma {:induction false} AtLeastOne(exp: real -> real, s: seq<real>, m: real)
    requires ExpLaws(exp) && m in s
    ensures Weight(exp, s, m) >= 1.0
  {
    hide ExpLaws;
    assert s == [s[0]] + s[1..];
    WeightPositive(exp, s[1..], m);
    if s[0] == m {
      ExpZero(exp, s[0] - m);
    } else {
      ExpPositive(exp, s[0] - m);
      AtLeastOne(exp, s[1..], m);
    }
  }

  lemma AtMostOne(exp: real -> real, x: real)
    requires ExpLaws(exp) && x <= 0.0
    ensures 0.0 < exp(x) <= 1.0
  {
  }

  lemma ExpZero(exp: real -> real, x: real)
    requires ExpLaws(exp) && x == 0.0
    ensures exp(x) == 1.0
  {
  }

  // ----------------------------------------------------------------------- the online recurrence

  /** One query head's accumulators; no maximum yet stands for minus infinity. */
  datatype Soft = Soft(max: Option<real>, denom: real, acc: Vec)

  function Column(values: seq<Vec>, c: nat): (r: seq<real>)
    requires forall i :: 0 <= i < |values| ==> c < |values[i]|
    ensures |r| == |values| && forall i :: 0 <= i < |r| ==> r[i] == values[i][c]
  {
    seq(|values|, i requires 0 <= i < |values| => values[i][c])
  }

  /** The accumulators for a whole score row: what the recurrence is to arrive at. */
  ghost predicate Sums(exp: real -> real, st: Soft, s: seq<real>, values: seq<Vec>, dim: nat) {
    && |s| == |values| && |st.acc| == dim && (forall i :: 0 <= i < |values| ==> |values[i]| == dim)
    && (st.max.Some? <==> s != [])
    && (s != [] ==> st.max.value == MaxOf(s))
    && st.denom == Weight(exp, s, if s == [] then 0.0 else MaxOf(s))
    && forall c :: 0 <= c < dim ==> st.acc[c] == Mix(exp, s, Column(values, c), if s == [] then 0.0 else MaxOf(s))
  }

  function NewMax(st: Soft, s: seq<real>): real
    requires s != []
  {
    match st.max
    case None => MaxOf(s)
    case Some(m) => MaxReal(m, MaxOf(s))
  }

  function Alpha(exp: real -> real, st: Soft, m: real): real {
    match st.max
    case None => 0.0
    case Some(old_) => exp(old_ - m)
  }

  /** One turn of the loop: rescale what is there to the new maximum, and add the block. */
  function Absorb(exp: real -> real, st: Soft, s: seq<real>, values: seq<Vec>, dim: nat): Soft
    requires s != [] && |s| == |values| && |st.acc| == dim && forall i :: 0 <= i < |values| ==> |values[i]| == dim
  {
    var m := NewMax(st, s);
    var alpha := Alpha(exp, st, m);
    Soft(Some(m), st.denom * alpha + Weight(exp, s, m),
         seq(dim, c requires 0 <= c < dim => st.acc[c] * alpha + Mix(exp, s, Column(values, c), m)))
  }

  lemma {:induction false} MaxJoin(s: seq<real>, t: seq<real>)
    requires s != [] && t != []
    ensures MaxOf(s + t) == MaxReal(MaxOf(s), MaxOf(t))
  {
    var m := MaxOf(s + t);
    assert MaxOf(s) in s + t && MaxOf(t) in s + t;
    assert m in s || m in t;
  }

  /** The recurrence step is exact: absorbing a block into the sums of what came before gives the sums
      of everything so far. */
  lemma AbsorbExact(exp: real -> real, st: Soft, s: seq<real>, values: seq<Vec>, t: seq<real>, more: seq<Vec>, dim: nat)
    requires ExpLaws(exp) && Sums(exp, st, s, values, dim)
    requires t != [] && |t| == |more| && forall i :: 0 <= i < |more| ==> |more[i]| == dim
    ensures Sums(exp, Absorb(exp, st, t, more, dim), s + t, values + more, dim)
  {
    hide MaxOf, Weight, Mix, ExpLaws;
    var m := NewMax(st, t);
    var st' := Absorb(exp, st, t, more, dim);
    var all := values + more;
    WeightJoin(exp, s, t, m);
    if s == [] {
      assert s + t == t && all == more;
      WeightNone(exp, m);
    } else {
      MaxJoin(s, t);
      WeightShift(exp, s, MaxOf(s), m);
    }
    forall c | 0 <= c < dim ensures st'.acc[c] == Mix(exp, s + t, Column(all, c), m) {
      assert Column(all, c) == Column(values, c) + Column(more, c);
      MixJoin(exp, s, Column(values, c), t, Column(more, c), m);
      if s == [] {
        MixNone(exp, Column(values, c), m);
      } else {
        MixShift(exp, s, Column(values, c), MaxOf(s), m);
      }
    }
  }

  lemma WeightNone(exp: real -> real, m: real)
    ensures Weight(exp, [], m) == 0.0
  {
  }

  lemma MixNone(exp: real -> real, v: seq<real>, m: real)
    requires v == []
    ensures Mix(exp, [], v, m) == 0.0
  {
  }

  // -------------------------------------------------------------------------------- the reference

  /** Softmax attention in one go: sum of exp(score) * value over sum of exp(score). */
  function Attend(exp: real -> real, s: seq<real>, values: seq<Vec>, dim: nat): (r: Vec)
    requires |s| == |values| && forall i :: 0 <= i < |values| ==> |values[i]| == dim
    ensures |r| == dim
  {
    var total := Weight(exp, s, 0.0);
    if total == 0.0 then seq(dim, c => 0.0)
    else seq(dim, c requires 0 <= c < dim => Mix(exp, s, Column(values, c), 0.0) / total)
  }

  function Divide(st: Soft, tiny: real): (r: Vec)
    requires tiny > 0.0
    ensures |r| == |st.acc|
  {
    seq(|st.acc|, c requires 0 <= c < |st.acc| => st.acc[c] / MaxReal(st.denom, tiny))
  }

  lemma Ratio(a: real, b: real, f: real)
    requires b > 0.0 && f > 0.0
    ensures b * f > 0.0 && (a * f) / (b * f) == a / b
  {
    var q := a / b;
    assert q * b == a;
    assert (q * b) * f == q * (b * f);
    assert b * f > 0.0;
    assert (q * (b * f)) / (b * f) == q;
  }

  /** Dividing the accumulated numerator by the clamped denominator is the softmax average. */
  lemma DivideIsAttend(exp: real -> real, st: Soft, s: seq<real>, values: seq<Vec>, dim: nat, tiny: real)
    requires ExpLaws(exp) && Sums(exp, st, s, values, dim) && 0.0 < tiny <= 1.0
    ensures Divide(st, tiny) == Attend(exp, s, values, dim)
    ensures s != [] ==> MaxReal(st.denom, tiny) == st.denom
  {
    hide MaxOf, ExpLaws, Mix, Weight;
    if s == [] {
      WeightNone(exp, 0.0);
      forall c | 0 <= c < dim ensures st.acc[c] / MaxReal(st.denom, tiny) == 0.0 {
        MixNone(exp, Column(values, c), 0.0);
      }
    } else {
      var m := MaxOf(s);
      AtLeastOne(exp, s, m);
      WeightPositive(exp, s, 0.0);
      WeightShift(exp, s, 0.0, m);
      ExpPositive(exp, 0.0 - m);
      var f, total := exp(0.0 - m), Weight(exp, s, 0.0);
      forall c | 0 <= c < dim ensures st.acc[c] / MaxReal(st.denom, tiny) == Mix(exp, s, Column(values, c), 0.0) / total {
        MixShift(exp, s, Column(values, c), 0.0, m);
        Ratio(Mix(exp, s, Column(values, c), 0.0), total, f);
      }
    }
  }

  lemma ExpPositive(exp: real -> real, x: real)
    requires ExpLaws(exp)
    ensures exp(x) > 0.0
  {
  }

  // ------------------------------------------------------------------------ what the average is

  function Total(xs: seq<real>): real {
    if xs == [] then 0.0 else xs[0] + Total(xs[1..])
  }

  /** The unnormalised weights of a score row. */
  function Exps(exp: real -> real, s: seq<real>): (r: seq<real>)
    ensures |r| == |s| && forall i :: 0 <= i < |s| ==> r[i] == exp(s[i])
  {
    seq(|s|, i requires 0 <= i < |s| => exp(s[i]))
  }

  lemma {:induction false} WeightIsTotal(exp: real -> real, s: seq<real>)
    ensures Weight(exp, s, 0.0) == Total(Exps(exp, s))
  {
    if s != [] {
      WeightIsTotal(exp, s[1..]);
      assert Exps(exp, s)[1..] == Exps(exp, s[1..]) && s[0] - 0.0 == s[0];
    }
  }

  lemma TotalPositive(exp: real -> real, s: seq<real>)
    requires ExpLaws(exp) && s != []
    ensures Weight(exp, s, 0.0) == Total(Exps(exp, s)) > 0.0
  {
    WeightIsTotal(exp, s);
    WeightPositive(exp, s, 0.0);
  }

  lemma {:induction false} MixConstant(exp: real -> real, s: seq<real>, v: seq<real>, m: real, x: real)
    requires |s| == |v| && forall i :: 0 <= i < |v| ==> v[i] == x
    ensures Mix(exp, s, v, m) == Weight(exp, s, m) * x
  {
    if s != [] {
      MixConstant(exp, s[1..], v[1..], m, x);
      Distribute(exp(s[0] - m), Weight(exp, s[1..], m), x);
    }
  }

  ghost predicate Combines(u: seq<real>, v: seq<real>, w: seq<real>, a: real, b: real) {
    |u| == |v| == |w| && forall i :: 0 <= i < |w| ==> w[i] == a * u[i] + b * v[i]
  }

  lemma CombinesRest(u: seq<real>, v: seq<real>, w: seq<real>, a: real, b: real)
    requires Combines(u, v, w, a, b)
    ensures |u| == |v| == |w|
    ensures w != [] ==> w[0] == a * u[0] + b * v[0] && Combines(u[1..], v[1..], w[1..], a, b)
  {
  }

  lemma {:induction false} MixLinear(exp: real -> real, s: seq<real>, u: seq<real>, v: seq<real>, w: seq<real>, a: real, b: real, m: real)
    requires |s| == |u| == |v| == |w| && Combines(u, v, w, a, b)
    ensures Mix(exp, s, w, m) == a * Mix(exp, s, u, m) + b * Mix(exp, s, v, m)
  {
    hide Combines;
    if s != [] {
      CombinesRest(u, v, w, a, b);
      MixLinear(exp, s[1..], u[1..], v[1..], w[1..], a, b, m);
      OneMore(exp(s[0] - m), a, b, u[0], v[0], w[0], Mix(exp, s[1..], u[1..], m), Mix(exp, s[1..], v[1..], m), Mix(exp, s[1..], w[1..], m));
    }
  }

  lemma OneMore(e: real, a: real, b: real, u: real, v: real, w: real, us: real, vs: real, ws: real)
    requires w == a * u + b * v && ws == a * us + b * vs
    ensures e * w + ws == a * (e * u + us) + b * (e * v + vs)
  {
    Spread(e, a, u, b, v);
    Gather2(a, e * u, us, b, e * v, vs);
  }

  lemma Spread(e: real, a: real, x: real, b: real, y: real)
    ensures e * (a * x + b * y) == a * (e * x) + b * (e * y)
  {
  }

  lemma Gather2(a: real, x: real, x': real, b: real, y: real, y': real)
    ensures a * x + b * y + (a * x' + b * y') == a * (x + x') + b * (y + y')
  {
  }

  lemma {:induction false} MixZero(exp: real -> real, s: seq<real>, v: seq<real>, m: real)
    requires |s| == |v| && forall i :: 0 <= i < |v| ==> v[i] == 0.0
    ensures Mix(exp, s, v, m) == 0.0
  {
    if s != [] {
      MixZero(exp, s[1..], v[1..], m);
    }
  }

  lemma {:induction false} MixUnit(exp: real -> real, s: seq<real>, v: seq<real>, p: nat)
    requires |s| == |v| && p < |s| && forall i :: 0 <= i < |v| ==> v[i] == if i == p then 1.0 else 0.0
    ensures Mix(exp, s, v, 0.0) == exp(s[p])
  {
    assert s[0] - 0.0 == s[0];
    if p == 0 {
      MixZero(exp, s[1..], v[1..], 0.0);
    } else {
      MixUnit(exp, s[1..], v[1..], p - 1);
    }
  }

  /** Attending to equal values returns that value. */
  lemma AttendConstant(exp: real -> real, s: seq<real>, values: seq<Vec>, dim: nat, v: Vec)
    requires ExpLaws(exp) && s != [] && |s| == |values| && |v| == dim && forall i :: 0 <= i < |values| ==> values[i] == v
    ensures Attend(exp, s, values, dim) == v
  {
    hide ExpLaws, Mix, Weight;
    TotalPositive(exp, s);
    forall c | 0 <= c < dim ensures Attend(exp, s, values, dim)[c] == v[c] {
      MixConstant(exp, s, Column(values, c), 0.0, v[c]);
      Ratio1(Weight(exp, s, 0.0), v[c]);
    }
  }

  lemma Ratio1(a: real, x: real)
    requires a > 0.0
    ensures (a * x) / a == x
  {
  }

  /** It is linear in the values. */
  lemma AttendLinear(exp: real -> real, s: seq<real>, u: seq<Vec>, v: seq<Vec>, w: seq<Vec>, dim: nat, a: real, b: real, c: nat)
    requires |s| == |u| == |v| == |w| && c < dim
    requires forall i :: 0 <= i < |s| ==> |u[i]| == |v[i]| == |w[i]| == dim
    requires forall i :: 0 <= i < |s| ==> w[i][c] == a * u[i][c] + b * v[i][c]
    ensures Attend(exp, s, w, dim)[c] == a * Attend(exp, s, u, dim)[c] + b * Attend(exp, s, v, dim)[c]
  {
    hide Mix, Weight;
    MixLinear(exp, s, Column(u, c), Column(v, c), Column(w, c), a, b, 0.0);
    if Weight(exp, s, 0.0) != 0.0 {
      Ratio2(Weight(exp, s, 0.0), a, Mix(exp, s, Column(u, c), 0.0), b, Mix(exp, s, Column(v, c), 0.0));
    }
  }

  lemma Ratio2(t: real, a: real, x: real, b: real, y: real)
    requires t != 0.0
    ensures (a * x + b * y) / t == a * (x / t) + b * (y / t)
  {
    assert x / t * t == x && y / t * t == y;
    assert (a * (x / t) + b * (y / t)) * t == a * x + b * y;
  }

  /** And it weighs position `p` with its share of the exponentiated scores. */
  lemma AttendWeight(exp: real -> real, s: seq<real>, values: seq<Vec>, dim: nat, c: nat, p: nat)
    requires ExpLaws(exp) && p < |s| == |values| && c < dim && forall i :: 0 <= i < |values| ==> |values[i]| == dim
    requires forall i :: 0 <= i < |values| ==> values[i][c] == if i == p then 1.0 else 0.0
    ensures Total(Exps(exp, s)) > 0.0
    ensures Attend(exp, s, values, dim)[c] == exp(s[p]) / Total(Exps(exp, s))
  {
    hide ExpLaws, Mix, Weight;
    TotalPositive(exp, s);
    MixUnit(exp, s, Column(values, c), p);
  }
}
