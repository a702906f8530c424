/** Result types and the few arithmetic and multiset facts the other modules share. */
module Common {

  datatype Option<+T> = None | Some(value: T)

  /** The exceptions the repository raises, as values. */
  datatype Error =
    | ValueError
    | OutOfBlocks
    | DoubleFree
    | AllocatorMisuse
    | IndexError
    | ShapeError
    | KeyError
    | Overflow
    | RuntimeFault
    | NoToken
    | AttributeFault
    | BudgetExceeded

  datatype Result<+T> = Ok(value: T) | Err(error: Error)

  type Block = int

  function Max(a: int, b: int): int {
    if a < b then b else a
  }

  function Min(a: int, b: int): int {
    if a < b then a else b
  }

  /** Ceiling division as the allocator writes it: `(n + bs - 1) // bs`. */
  function CeilDiv(n: nat, bs: nat): (k: nat)
    requires bs > 0
  {
    (n + bs - 1) / bs
  }

  lemma DivBounds(a: int, b: int)
    requires b > 0
    ensures (a / b) * b <= a < (a / b + 1) * b
    ensures a >= 0 ==> 0 <= a / b <= a
    ensures 0 <= a % b < b && a == (a / b) * b + a % b
  {
    assert a == (a / b) * b + a % b;
    if a >= 0 {
      assert (a / b) * 1 <= (a / b) * b by { if a / b < 0 { MulLe(a / b + 1, 0, b); } MulLe2(a / b, 1, b); }
      if a / b < 0 { MulLe(a / b + 1, 0, b); }
    }
  }

  lemma MulLe(a: int, b: int, c: nat)
    requires a <= b
    ensures a * c <= b * c
  {
    if c > 0 {
      MulLe(a, b, c - 1);
      assert a * c == a * (c - 1) + a && b * c == b * (c - 1) + b;
    }
  }

  lemma MulLe2(a: int, b: int, c: int)
    requires b <= c && 0 <= a
    ensures a * b <= a * c
  {
    assert a * (c - b) >= 0;
    assert a * c == a * b + a * (c - b);
  }

  lemma DivUnique(a: int, b: int, q: int)
    requires b > 0 && q * b <= a < (q + 1) * b
    ensures a / b == q && a % b == a - q * b
  {
    DivBounds(a, b);
    if a / b < q {
      MulLe(a / b + 1, q, b);
    } else if a / b > q {
      MulLe(q + 1, a / b, b);
    }
  }

  /** The adjunction that makes ceiling division the right block count: `k` blocks are enough for
      `n` tokens exactly when `k` is at least the ceiling. */
  lemma CeilDivAdjunction(n: nat, bs: nat, k: nat)
    requires bs > 0
    ensures CeilDiv(n, bs) <= k <==> n <= k * bs
  {
    var q := CeilDiv(n, bs);
    DivBounds(n + bs - 1, bs);
    assert q * bs <= n + bs - 1 < (q + 1) * bs;
    assert (q + 1) * bs == q * bs + bs;
    if q <= k {
      MulLe(q, k, bs);
    } else {
      MulLe(k + 1, q, bs);
      assert (k + 1) * bs == k * bs + bs;
    }
  }

  lemma CeilDivMono(m: nat, n: nat, bs: nat)
    requires bs > 0 && m <= n
    ensures CeilDiv(m, bs) <= CeilDiv(n, bs)
  {
    CeilDivAdjunction(n, bs, CeilDiv(n, bs));
    CeilDivAdjunction(m, bs, CeilDiv(n, bs));
  }

  /** A position inside `k` blocks names an existing block and an existing slot. */
  lemma Located(i: nat, k: nat, bs: nat)
    requires bs > 0 && i < k * bs
    ensures 0 <= i / bs < k && 0 <= i % bs < bs
  {
    DivBounds(i, bs);
    if i / bs >= k {
      MulLe(k, i / bs, bs);
    }
  }

  ghost predicate Distinct<T>(s: seq<T>) {
    forall i, j :: 0 <= i < j < |s| ==> s[i] != s[j]
  }

  lemma MultisetIn<T>(s: seq<T>, x: T)
    ensures x in s <==> x in multiset(s)
    ensures x !in s ==> multiset(s)[x] == 0
  {
  }

  lemma {:induction false} DistinctCount<T>(s: seq<T>, x: T)
    requires Distinct(s)
    ensures multiset(s)[x] == (if x in s then 1 else 0)
  {
    if s != [] {
      var init, last := s[..|s| - 1], s[|s| - 1];
      assert s == init + [last];
      DistinctCount(init, x);
      assert x in s <==> x in init || x == last;
      assert multiset(s) == multiset(init) + multiset{last};
    }
  }

  /** Two different positions holding the same value make its multiplicity at least two. */
  lemma TwoOccurrences<T>(s: seq<T>, i: nat, j: nat)
    requires i < j < |s| && s[i] == s[j]
    ensures multiset(s)[s[i]] >= 2
  {
    assert s == s[..j] + [s[j]] + s[j + 1..];
    assert s[i] in s[..j];
    assert multiset(s) == multiset(s[..j]) + multiset{s[j]} + multiset(s[j + 1..]);
  }

  lemma UpdateMultiset<T>(s: seq<T>, i: nat, x: T)
    requires i < |s|
    ensures multiset(s[i := x]) == multiset(s) - multiset{s[i]} + multiset{x}
  {
    assert s == s[..i] + [s[i]] + s[i + 1..];
    assert s[i := x] == s[..i] + [x] + s[i + 1..];
  }

  /** A duplicate-free list of numbers below `n` has at most `n` elements, and exactly `n` when it
      lists all of them. */
  lemma {:induction false} DistinctBelow(s: seq<int>, n: nat)
    requires Distinct(s)
    requires forall x :: x in s ==> 0 <= x < n
    ensures |s| <= n
    ensures (forall x :: 0 <= x < n ==> x in s) ==> |s| == n
  {
    var elems := set x | x in s;
    var all := Upto(n);
    DistinctCard(s);
    assert elems <= all;
    SubsetCard(elems, all);
    if forall x :: 0 <= x < n ==> x in s {
      assert elems == all;
    }
  }

  lemma {:induction false} DistinctCard(s: seq<int>)
    requires Distinct(s)
    ensures |set x | x in s| == |s|
  {
    if s != [] {
      var init, last := s[..|s| - 1], s[|s| - 1];
      DistinctCard(init);
      assert s == init + [last];
      assert (set x | x in s) == (set x | x in init) + {last};
      assert last !in init;
    }
  }

  ghost function Upto(n: nat): (r: set<int>)
    ensures |r| == n
    ensures forall x :: x in r <==> 0 <= x < n
  {
    if n == 0 then {} else Upto(n - 1) + {n - 1}
  }

  lemma {:induction false} SubsetCard<T>(a: set<T>, b: set<T>)
    requires a <= b
    ensures |a| <= |b|
  {
    assert b == a + (b - a);
  }
}
