/** A run of the arena that creates one sequence and prefills it layer by layer, for any number of layers,
    block size and length that fits: how a state with a given history is reached. */
module Prefills {
  import opened Common
  import opened Tensors
  import opened Paging
  import opened PagingProofs
  import opened WriteCosts
  import opened Arenas
  import opened ArenaProofs
  import opened ArenaRuns
  import opened Owners
  import opened Unsharing
  import Prefixes
  import P = Pools

  /** The history with the first `l` layers written. */
  ghost function Partly(xss: Hist, l: nat): (h: Hist)
    ensures |h| == |xss| && forall k :: 0 <= k < |xss| ==> h[k] == if k < l then xss[k] else []
  {
    seq(|xss|, k requires 0 <= k < |xss| => if k < l then xss[k] else [])
  }

  /** Its owner, over `n` tokens: the first layer claims them all. */
  ghost function Filler(first: nat, xss: Hist, n: nat, l: nat): Owner {
    Owner(first, if l > 0 then n else 0, if l > 0 then n else 0, Partly(xss, l))
  }

  function Layers(first: nat, xss: Hist, l: nat): seq<Op>
    requires l <= |xss|
    decreases |xss| - l
  {
    if l == |xss| then [] else [Update(0, first + l, xss[l])] + Layers(first, xss, l + 1)
  }

  /** Creating a sequence whose cache starts at model layer `first`, and running one forward of it. */
  function Prefill(first: nat, xss: Hist): seq<Op> {
    [New(first)] + Layers(first, xss, 0)
  }

  datatype Shape = Shape(layers: nat, numBlocks: nat, blockSize: nat, maxBlocks: nat)

  function Empty(s: Shape, zero: KV): Arena {
    Arenas.Init(s.layers, s.numBlocks, s.blockSize, s.maxBlocks, zero)
  }

  /** One sequence alone in the arena, `l` layers into its first forward of `n` tokens. */
  ghost predicate Filling(a: Arena, s: Shape, first: nat, xss: Hist, n: nat, l: nat, kvOf: Oracle) {
    && s.layers > 0 && s.blockSize > 0 && |xss| == s.layers && l <= s.layers
    && (forall k :: 0 <= k < |xss| ==> |xss[k]| == n) && CeilDiv(n, s.blockSize) <= s.numBlocks
    && Inv(a, [Partly(xss, l)], kvOf) && Sole(a) && |a.caches| == 1 && a.caches[0].firstLayer == first
    && a.entries == [] && a.maxBlocks == s.maxBlocks && a.store.pool.blockSize == s.blockSize
    && |a.store.kv| == s.layers && |a.store.pool.refcount| == s.numBlocks
    && if l == 0 then a.caches[0] == Cache(EMPTY_TABLE, 0, first) && |a.store.pool.free| == s.numBlocks
       else a.caches[0].table.numTokens == a.caches[0].pending == n && |a.store.pool.free| + CeilDiv(n, s.blockSize) == s.numBlocks
  }

  lemma Created(s: Shape, zero: KV, first: nat, xss: Hist, n: nat, kvOf: Oracle)
    requires s.layers > 0 && s.blockSize > 0 && |xss| == s.layers
    requires (forall k :: 0 <= k < |xss| ==> |xss[k]| == n) && CeilDiv(n, s.blockSize) <= s.numBlocks
    ensures var a0 := Empty(s, zero);
      && a0.store.pool.blockSize > 0 && a0.caches == []
      && Filling(Call(a0, New(first)).arena, s, first, xss, n, 0, kvOf) && Enabled(|a0.store.kv|, [], New(first), kvOf)
      && Abstract(a0, [], New(first), kvOf) == [Filler(first, xss, n, 0)]
  {
    hide CeilDiv;
    var a0 := Empty(s, zero);
    InitInv(s.layers, s.numBlocks, s.blockSize, s.maxBlocks, zero, kvOf);
    P.InitExact(s.numBlocks, s.blockSize);
    assert AllHeld(a0) == multiset{};
    CallSole(a0, New(first));
    NewStep(a0, [], first, kvOf);
    hide Inv, Sole;
    assert NoHist(s.layers) == Partly(xss, 0);
    assert [] + [Filler(first, xss, n, 0)] == [Filler(first, xss, n, 0)];
  }

  lemma NothingInRange(bs: nat, n: nat)
    requires bs > 0
    ensures Missing(EMPTY_TABLE, bs, n) == CeilDiv(n, bs) && RangeBlocks(EMPTY_TABLE, bs, n) == []
  {
    CeilDivAdjunction(n, bs, 0);
  }

  lemma FillLayer(a: Arena, s: Shape, first: nat, xss: Hist, n: nat, l: nat, kvOf: Oracle)
    requires Filling(a, s, first, xss, n, l, kvOf) && l < s.layers
    ensures a.store.pool.blockSize > 0 && Enabled(s.layers, [Filler(first, xss, n, l)], Update(0, first + l, xss[l]), kvOf)
    ensures Abstract(a, [Filler(first, xss, n, l)], Update(0, first + l, xss[l]), kvOf) == [Filler(first, xss, n, l + 1)]
    ensures Filling(Call(a, Update(0, first + l, xss[l])).arena, s, first, xss, n, l + 1, kvOf)
  {
    hide Inv, Sole, CeilDiv, Missing, Splits, RangeBlocks, AllHeld, Paging.Update;
    var h := Partly(xss, l);
    assert h[l := h[l] + xss[l]] == Partly(xss, l + 1) by { assert [] + xss[l] == xss[l]; }
    assert [h][0 := Partly(xss, l + 1)] == [Partly(xss, l + 1)];
    CallSole(a, Update(0, first + l, xss[l]));
    if l == 0 {
      FirstLayerStep(a, [h], 0, xss[0], kvOf);
      NothingInRange(s.blockSize, n);
      NoSplits(AllHeld(a), []);
    } else {
      LaterLayerStep(a, [h], 0, first + l, xss[l], kvOf);
    }
  }

  lemma {:induction false} FillRest(a: Arena, s: Shape, first: nat, xss: Hist, n: nat, l: nat, kvOf: Oracle) returns (a': Arena)
    requires Filling(a, s, first, xss, n, l, kvOf)
    ensures Reaches(a, [Filler(first, xss, n, l)], Layers(first, xss, l), a', [Filler(first, xss, n, s.layers)], kvOf)
    ensures Filling(a', s, first, xss, n, s.layers, kvOf)
    decreases s.layers - l
  {
    hide Inv, Sole, Call, Reaches, Enabled, Abstract, CeilDiv;
    if l == s.layers {
      a' := a;
      ReachesNow(a, [Filler(first, xss, n, l)], kvOf);
    } else {
      FillLayer(a, s, first, xss, n, l, kvOf);
      var a1 := Call(a, Update(0, first + l, xss[l])).arena;
      a' := FillRest(a1, s, first, xss, n, l + 1, kvOf);
      ReachesBy(a, [Filler(first, xss, n, l)], Update(0, first + l, xss[l]), a1, [Filler(first, xss, n, l + 1)], Layers(first, xss, l + 1), a', [Filler(first, xss, n, s.layers)], kvOf);
    }
  }

  /** One prefilled sequence alone in its arena. */
  ghost predicate Alone(a: Arena, s: Shape, first: nat, xss: Hist, n: nat, kvOf: Oracle) {
    && Inv(a, [xss], kvOf) && Sole(a) && |a.caches| == 1 && a.caches[0].firstLayer == first
    && a.caches[0].table.numTokens == n && |a.caches[0].table.blocks| == CeilDivOf(n, s.blockSize)
    && |a.store.pool.free| + CeilDivOf(n, s.blockSize) == s.numBlocks
    && a.entries == [] && a.maxBlocks == s.maxBlocks && a.store.pool.blockSize == s.blockSize > 0
    && |a.store.kv| == s.layers && |xss| == s.layers && forall k :: 0 <= k < |xss| ==> |xss[k]| == n
  }

  function CeilDivOf(n: nat, bs: nat): nat {
    if bs > 0 then CeilDiv(n, bs) else 0
  }

  /** Every history of equal length in all layers, starting at any model layer, is reached from an empty arena
      that can hold it. */
  lemma Prefilled(s: Shape, zero: KV, first: nat, xss: Hist, n: nat, kvOf: Oracle) returns (a: Arena)
    requires s.layers > 0 && s.blockSize > 0 && |xss| == s.layers
    requires (forall k :: 0 <= k < |xss| ==> |xss[k]| == n) && CeilDiv(n, s.blockSize) <= s.numBlocks
    ensures Reaches(Empty(s, zero), [], Prefill(first, xss), a, [Owner(first, n, n, xss)], kvOf)
    ensures Alone(a, s, first, xss, n, kvOf)
  {
    hide Inv, Sole, Reaches, CeilDiv, Empty, Enabled, Abstract, Call;
    Created(s, zero, first, xss, n, kvOf);
    var a1 := Call(Empty(s, zero), New(first)).arena;
    a := FillRest(a1, s, first, xss, n, 0, kvOf);
    assert Partly(xss, s.layers) == xss;
    ReachesBy(Empty(s, zero), [], New(first), a1, [Filler(first, xss, n, 0)], Layers(first, xss, 0), a, [Owner(first, n, n, xss)], kvOf);
    HoldsItAll(a);
  }

  lemma HoldsItAll(a: Arena)
    requires Sole(a) && |a.caches| == 1 && a.entries == []
    ensures |a.caches[0].table.blocks| + |a.store.pool.free| == |a.store.pool.refcount|
  {
    P.Conservation(a.store.pool, AllHeld(a));
    assert a.caches[..0] == [];
    assert HeldBy(a.caches[..0]) == multiset{};
    assert HeldBy(a.caches) == HeldBy(a.caches[..0]) + Bag(a.caches[0]);
    assert multiset(Prefixes.Blocks(a.entries)) == multiset{};
    assert AllHeld(a) == multiset(a.caches[0].table.blocks);
  }
}
