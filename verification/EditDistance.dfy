/** Edit distance and the answer-quality score built on it (bench/metrics.py). */
module EditDistance {
  import opened Common

  function Least(a: int, b: int, c: int): int {
    Min(a, Min(b, c))
  }

  function Differ(x: char, y: char): nat {
    if x == y then 0 else 1
  }

  function Init(s: string): (r: string)
    requires s != []
    ensures |r| == |s| - 1
  {
    s[..|s| - 1]
  }

  function Last(s: string): char
    requires s != []
  {
    s[|s| - 1]
  }

  /** The recurrence the dynamic program tabulates, on the last characters. */
  function Lev(a: string, b: string): (d: nat)
    decreases |a| + |b|
  {
    if a == [] then |b|
    else if b == [] then |a|
    else Least(Lev(Init(a), b) + 1, Lev(a, Init(b)) + 1, Lev(Init(a), Init(b)) + Differ(Last(a), Last(b)))
  }

  // ------------------------------------------------------------------- what a distance is to be

  /** `b` is `a` with one character inserted, deleted or replaced. */
  ghost predicate OneEdit(a: string, b: string) {
    exists p: string, x: string, y: string, s: string ::
      a == p + x + s && b == p + y + s && |x| <= 1 && |y| <= 1
  }

  /** A script: each string is one edit away from the one before. */
  ghost predicate Script(path: seq<string>, a: string, b: string) {
    && path != [] && path[0] == a && path[|path| - 1] == b
    && forall i :: 0 <= i < |path| - 1 ==> OneEdit(path[i], path[i + 1])
  }

  lemma {:induction false} Bounds(a: string, b: string)
    ensures Lev(a, b) <= Max(|a|, |b|) && Lev(a, b) >= |a| - |b| && Lev(a, b) >= |b| - |a|
    decreases |a| + |b|
  {
    if a != [] && b != [] {
      Bounds(Init(a), b);
      Bounds(a, Init(b));
      Bounds(Init(a), Init(b));
    }
  }

  lemma {:induction false} Symmetric(a: string, b: string)
    ensures Lev(a, b) == Lev(b, a)
    decreases |a| + |b|
  {
    if a != [] && b != [] {
      Symmetric(Init(a), b);
      Symmetric(a, Init(b));
      Symmetric(Init(a), Init(b));
    }
  }

  lemma {:induction false} ZeroIffSame(a: string, b: string)
    ensures Lev(a, b) == 0 <==> a == b
    decreases |a| + |b|
  {
    if a != [] && b != [] {
      ZeroIffSame(Init(a), Init(b));
      assert a == Init(a) + [Last(a)] && b == Init(b) + [Last(b)];
    }
  }

  lemma {:induction false} Triangle(a: string, b: string, c: string)
    ensures Lev(a, c) <= Lev(a, b) + Lev(b, c)
    decreases |a| + |b| + |c|
  {
    if a == [] || b == [] || c == [] {
      Bounds(a, b);
      Bounds(b, c);
      Bounds(a, c);
    } else {
      Triangle(Init(a), b, c);
      Triangle(a, b, Init(c));
      Triangle(a, Init(b), c);
      Triangle(a, Init(b), Init(c));
      Triangle(Init(a), Init(b), c);
      Triangle(Init(a), Init(b), Init(c));
    }
  }

  lemma {:induction false} CommonSuffix(a: string, b: string, s: string)
    ensures Lev(a + s, b + s) <= Lev(a, b)
    decreases |s|
  {
    hide Lev;
    if s == [] {
      assert a + s == a && b + s == b;
    } else {
      CommonSuffix(a, b, Init(s));
      assert Init(a + s) == a + Init(s) && Init(b + s) == b + Init(s);
      assert Last(a + s) == Last(s) == Last(b + s);
      Unfolded(a + s, b + s);
    }
  }

  lemma Shorten(a: string, b: string)
    requires a != []
    ensures Lev(a, b) <= Lev(Init(a), b) + 1
    ensures b != [] ==> Lev(a, b) <= Lev(Init(a), Init(b)) + 1
  {
    hide Lev;
    if b == [] {
      Empty(a);
      Empty(Init(a));
    } else {
      Unfolded(a, b);
    }
  }

  lemma Unfolded(a: string, b: string)
    requires a != [] && b != []
    ensures Lev(a, b) == Least(Lev(Init(a), b) + 1, Lev(a, Init(b)) + 1, Lev(Init(a), Init(b)) + Differ(Last(a), Last(b)))
  {
    hide Lev;
    assert a[..|a|] == a && b[..|b|] == b;
    Cell(a, b, |a| - 1, |b| - 1);
  }

  lemma Empty(a: string)
    ensures Lev(a, []) == |a| == Lev([], a)
  {
  }

  lemma LastDiffers(p: string, x: string, y: string)
    requires |x| <= 1 && |y| <= 1
    ensures Lev(p + x, p + y) <= 1
  {
    hide Lev;
    ZeroIffSame(p, p);
    ZeroIffSame(p + x, p + y);
    if x != [] {
      assert Init(p + x) == p;
      Shorten(p + x, p + y);
      if y != [] { assert Init(p + y) == p; } else { assert p + y == p; }
    } else if y != [] {
      assert Init(p + y) == p && p + x == p;
      Shorten(p + y, p + x);
      Symmetric(p + x, p + y);
    }
  }

  /** One edit costs at most one. */
  lemma OneEditCosts(a: string, b: string)
    requires OneEdit(a, b)
    ensures Lev(a, b) <= 1
  {
    hide Lev;
    var p: string, x: string, y: string, s: string :| a == p + x + s && b == p + y + s && |x| <= 1 && |y| <= 1;
    CommonSuffix(p + x, p + y, s);
    LastDiffers(p, x, y);
  }

  /** No script is shorter than the distance... */
  lemma {:induction false} ScriptsAreLonger(path: seq<string>, a: string, b: string)
    requires Script(path, a, b)
    ensures Lev(a, b) <= |path| - 1
    decreases |path|
  {
    if |path| == 1 {
      ZeroIffSame(a, b);
    } else {
      assert OneEdit(path[0], path[1]);
      OneEditCosts(path[0], path[1]);
      var rest := path[1..];
      forall i | 0 <= i < |rest| - 1 ensures OneEdit(rest[i], rest[i + 1]) {
        assert OneEdit(path[i + 1], path[i + 2]);
      }
      ScriptsAreLonger(rest, path[1], b);
      Triangle(a, path[1], b);
    }
  }

  lemma Extend(path: seq<string>, a: string, b: string, c: string)
    requires Script(path, a, b) && OneEdit(b, c)
    ensures Script(path + [c], a, c)
  {
    var longer := path + [c];
    forall i | 0 <= i < |longer| - 1 ensures OneEdit(longer[i], longer[i + 1]) {
      if i < |path| - 1 { assert OneEdit(path[i], path[i + 1]); }
    }
  }

  lemma Prepend(path: seq<string>, a: string, b: string, c: string)
    requires OneEdit(a, b) && Script(path, b, c)
    ensures Script([a] + path, a, c)
  {
    var longer := [a] + path;
    forall i | 0 <= i < |longer| - 1 ensures OneEdit(longer[i], longer[i + 1]) {
      if i > 0 { assert OneEdit(path[i - 1], path[i]); }
    }
  }

  function Suffixed(path: seq<string>, s: string): (r: seq<string>)
    ensures |r| == |path| && forall i :: 0 <= i < |path| ==> r[i] == path[i] + s
  {
    seq(|path|, i requires 0 <= i < |path| => path[i] + s)
  }

  lemma SuffixScript(path: seq<string>, a: string, b: string, t: string)
    requires Script(path, a, b)
    ensures Script(Suffixed(path, t), a + t, b + t)
  {
    hide OneEdit;
    var longer := Suffixed(path, t);
    forall i | 0 <= i < |longer| - 1 ensures OneEdit(longer[i], longer[i + 1]) {
      assert OneEdit(path[i], path[i + 1]);
      SuffixEdit(path[i], path[i + 1], t);
    }
  }

  lemma SuffixEdit(a: string, b: string, t: string)
    requires OneEdit(a, b)
    ensures OneEdit(a + t, b + t)
  {
    var p: string, x: string, y: string, s: string :| a == p + x + s && b == p + y + s && |x| <= 1 && |y| <= 1;
    assert a + t == p + x + (s + t) && b + t == p + y + (s + t);
  }

  lemma EditLast(p: string, x: string, y: string)
    requires |x| <= 1 && |y| <= 1
    ensures OneEdit(p + x, p + y)
  {
    assert p + x == p + x + [] && p + y == p + y + [];
  }

  /** ...and one is exactly that long. */
  lemma {:induction false} ShortestScript(a: string, b: string) returns (path: seq<string>)
    ensures Script(path, a, b) && |path| == Lev(a, b) + 1
    decreases |a| + |b|
  {
    if a == [] && b == [] {
      path := [a];
    } else if b == [] || (a != [] && Lev(a, b) == Lev(Init(a), b) + 1) {
      var rest := ShortestScript(Init(a), b);
      assert a == Init(a) + [Last(a)] && Init(a) == Init(a) + [];
      EditLast(Init(a), [Last(a)], []);
      Prepend(rest, a, Init(a), b);
      path := [a] + rest;
    } else if a == [] || Lev(a, b) == Lev(a, Init(b)) + 1 {
      var rest := ShortestScript(a, Init(b));
      assert b == Init(b) + [Last(b)] && Init(b) == Init(b) + [];
      EditLast(Init(b), [], [Last(b)]);
      Extend(rest, a, Init(b), b);
      path := rest + [b];
    } else {
      var rest := ShortestScript(Init(a), Init(b));
      path := BothLast(rest, a, b);
    }
  }

  /** Editing all but the last characters, and then those. */
  lemma BothLast(rest: seq<string>, a: string, b: string) returns (path: seq<string>)
    requires a != [] && b != [] && Script(rest, Init(a), Init(b))
    ensures Script(path, a, b) && |path| == |rest| + if Last(a) == Last(b) then 0 else 1
  {
    SuffixScript(rest, Init(a), Init(b), [Last(b)]);
    assert a == Init(a) + [Last(a)] && b == Init(b) + [Last(b)];
    path := Suffixed(rest, [Last(b)]);
    if Last(a) != Last(b) {
      EditLast(Init(a), [Last(a)], [Last(b)]);
      Prepend(path, a, Init(a) + [Last(b)], b);
      path := [a] + path;
    }
  }

  /** The distance is the length of a shortest script, and nothing else. */
  lemma LevIsShortest(a: string, b: string, n: nat)
    ensures n == Lev(a, b) <==>
      (exists path :: Script(path, a, b) && |path| == n + 1) && forall path :: Script(path, a, b) ==> n + 1 <= |path|
  {
    var best := ShortestScript(a, b);
    forall path | Script(path, a, b) ensures Lev(a, b) + 1 <= |path| {
      ScriptsAreLonger(path, a, b);
    }
  }

  // ------------------------------------------------------------------------------- the program

  method Levenshtein(a0: string, b0: string) returns (r: nat)
    ensures r == Lev(a0, b0)
  {
    hide Lev;
    var a, b := a0, b0;
    if |a| < |b| {
      a, b := b, a;
      Symmetric(a0, b0);
    }
    var previous := seq(|b| + 1, j => j);
    forall j | 0 <= j <= |b| ensures previous[j] == Lev(a[..0], b[..j]) { Border(a, b, 0, j); }
    var i := 0;
    while i < |a|
      invariant 0 <= i <= |a| && |previous| == |b| + 1
      invariant forall j :: 0 <= j <= |b| ==> previous[j] == Lev(a[..i], b[..j])
    {
      var current := [i + 1];
      Border(a, b, i + 1, 0);
      var j := 0;
      while j < |b|
        invariant 0 <= j <= |b| && |current| == j + 1
        invariant forall k :: 0 <= k <= j ==> current[k] == Lev(a[..i + 1], b[..k])
      {
        Cell(a, b, i, j);
        var next := Least(previous[j + 1] + 1, current[j] + 1, previous[j] + Differ(a[i], b[j]));
        current := current + [next];
        j := j + 1;
      }
      previous := current;
      i := i + 1;
    }
    assert a[..|a|] == a && b[..|b|] == b;
    return previous[|b|];
  }

  lemma Border(a: string, b: string, i: nat, j: nat)
    requires i <= |a| && j <= |b| && (i == 0 || j == 0)
    ensures Lev(a[..i], b[..j]) == i + j
  {
  }

  lemma Cell(a: string, b: string, i: nat, j: nat)
    requires i < |a| && j < |b|
    ensures Lev(a[..i + 1], b[..j + 1]) == Least(Lev(a[..i], b[..j + 1]) + 1, Lev(a[..i + 1], b[..j]) + 1, Lev(a[..i], b[..j]) + Differ(a[i], b[j]))
  {
    assert Init(a[..i + 1]) == a[..i] && Init(b[..j + 1]) == b[..j];
  }

  // ------------------------------------------------------------------------------------- anls

  /** Similarity of two normalised strings. */
  function Similarity(p: string, g: string): real {
    if p == [] && g == [] then 1.0 else 1.0 - Lev(p, g) as real / Max(|p|, |g|) as real
  }

  function BestSimilarity(p: string, golds: seq<string>): real {
    if golds == [] then 0.0
    else
      var rest := BestSimilarity(p, golds[..|golds| - 1]);
      var s := Similarity(p, golds[|golds| - 1]);
      if rest < s then s else rest
  }

  lemma SimilarityInRange(p: string, g: string)
    ensures 0.0 <= Similarity(p, g) <= 1.0
    ensures Similarity(p, g) == 1.0 <==> p == g
  {
    Bounds(p, g);
    ZeroIffSame(p, g);
    if p != [] || g != [] {
      var n, m := Lev(p, g) as real, Max(|p|, |g|) as real;
      assert 0.0 <= n <= m && m > 0.0;
      Fraction(n, m);
    }
  }

  /** The similarity is the share of the longer string that a shortest script leaves alone. */
  lemma SimilarityIs(p: string, g: string, n: nat)
    requires (exists path :: Script(path, p, g) && |path| == n + 1) && forall path :: Script(path, p, g) ==> n + 1 <= |path|
    ensures Similarity(p, g) * Max(|p|, |g|) as real == (Max(|p|, |g|) - n) as real
    ensures p == g == [] ==> Similarity(p, g) == 1.0
  {
    hide Lev, Script;
    LevIsShortest(p, g, n);
    Bounds(p, g);
    if p != [] || g != [] {
      ShareLeft(n as real, Max(|p|, |g|) as real);
    }
  }

  lemma ShareLeft(n: real, m: real)
    requires m > 0.0
    ensures (1.0 - n / m) * m == m - n
  {
    var q := n / m;
    assert q * m == n;
    assert (1.0 - q) * m == m - q * m;
  }

  lemma Fraction(n: real, m: real)
    requires 0.0 <= n <= m && m > 0.0
    ensures 0.0 <= n / m <= 1.0 && (n / m == 0.0 <==> n == 0.0)
  {
    var q := n / m;
    assert q * m == n;
  }

  /** The best of the similarities: none exceeds it, and one of them reaches it; 0 when there are none. */
  ghost predicate IsBest(p: string, golds: seq<string>, best: real) {
    && (forall i :: 0 <= i < |golds| ==> Similarity(p, golds[i]) <= best)
    && if golds == [] then best == 0.0 else exists i :: 0 <= i < |golds| && Similarity(p, golds[i]) == best
  }

  lemma {:induction false} BestInRange(p: string, golds: seq<string>)
    ensures IsBest(p, golds, BestSimilarity(p, golds))
    ensures 0.0 <= BestSimilarity(p, golds) <= 1.0
    ensures forall i :: 0 <= i < |golds| ==> Similarity(p, golds[i]) <= BestSimilarity(p, golds)
    ensures BestSimilarity(p, golds) == 1.0 <==> p in golds
  {
    if golds != [] {
      var init, last := golds[..|golds| - 1], golds[|golds| - 1];
      BestInRange(p, init);
      SimilarityInRange(p, last);
      assert golds == init + [last];
      BestReached(p, init, last);
    }
  }

  lemma BestReached(p: string, init: seq<string>, last: string)
    requires IsBest(p, init, BestSimilarity(p, init))
    ensures IsBest(p, init + [last], BestSimilarity(p, init + [last]))
  {
    hide Similarity;
    var golds := init + [last];
    assert golds[..|golds| - 1] == init && golds[|init|] == last;
    var best := BestSimilarity(p, golds);
    if init == [] {
      SimilarityInRange(p, last);
      assert Similarity(p, golds[0]) == best;
    } else if best == Similarity(p, last) {
      assert Similarity(p, golds[|init|]) == best;
    } else {
      var i :| 0 <= i < |init| && Similarity(p, init[i]) == BestSimilarity(p, init);
      assert golds[i] == init[i];
    }
  }

  /** `norm` is strip-and-lowercase. */
  function Normalised(norm: string -> string, answers: seq<string>): (r: seq<string>)
    ensures |r| == |answers| && forall i :: 0 <= i < |answers| ==> r[i] == norm(answers[i])
  {
    seq(|answers|, i requires 0 <= i < |answers| => norm(answers[i]))
  }

  method Anls(norm: string -> string, prediction: string, answers: seq<string>, threshold: real) returns (r: real)
    ensures var best := BestSimilarity(norm(prediction), Normalised(norm, answers));
      IsBest(norm(prediction), Normalised(norm, answers), best) && r == if best >= threshold then best else 0.0
    ensures 0.0 <= r <= 1.0
    ensures 0.0 < threshold <= 1.0 ==> (r == 1.0 <==> exists i :: 0 <= i < |answers| && norm(answers[i]) == norm(prediction))
  {
    hide Lev, Similarity, BestSimilarity, IsBest;
    var p := norm(prediction);
    ghost var golds := Normalised(norm, answers);
    var best := 0.0;
    var i := 0;
    NoneBest(p, golds[..0]);
    while i < |answers|
      invariant 0 <= i <= |answers|
      invariant best == BestSimilarity(p, golds[..i])
    {
      var gold := norm(answers[i]);
      BestPush(p, golds, i);
      if gold == [] && p == [] {
        best := if best < 1.0 then 1.0 else best;
      } else {
        var distance := Levenshtein(p, gold);
        var similarity := 1.0 - distance as real / Max(|p|, |gold|) as real;
        best := if best < similarity then similarity else best;
      }
      i := i + 1;
    }
    assert golds[..i] == golds;
    BestInRange(p, golds);
    assert p in golds <==> exists i :: 0 <= i < |answers| && norm(answers[i]) == p;
    return if best >= threshold then best else 0.0;
  }

  lemma NoneBest(p: string, golds: seq<string>)
    requires golds == []
    ensures BestSimilarity(p, golds) == 0.0
  {
  }

  /** One more answer: the larger of the best so far and its similarity. */
  lemma BestPush(p: string, golds: seq<string>, i: nat)
    requires i < |golds|
    ensures var best, g := BestSimilarity(p, golds[..i]), golds[i];
      BestSimilarity(p, golds[..i + 1]) ==
        if p == [] && g == [] then if best < 1.0 then 1.0 else best
        else var s := 1.0 - Lev(p, g) as real / Max(|p|, |g|) as real; if best < s then s else best
  {
    hide Lev;
    assert golds[..i + 1][..i] == golds[..i];
  }
}
