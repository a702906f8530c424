/** Swapping as shipped, from an empty arena: a parked sequence that cannot come back although the pool is
    empty, and the blocks lost on the way. */
module SwapRuns {
  import opened Common
  import opened Tensors
  import opened Paging
  import opened Arenas
  import opened ArenaProofs
  import opened ArenaRuns
  import opened Owners
  import opened Swaps
  import opened SwapProofs
  import opened Unsharing
  import opened Prefills
  import P = Pools

  /** The pool after the only sequence was swapped out: every block is free and nobody holds any. */
  lemma AllFree(a: Arena, s: Shape, first: nat, xss: Hist, n: nat, kvOf: Oracle)
    requires Prefills.Alone(a, s, first, xss, n, kvOf)
    ensures a.store.pool.blockSize > 0
    ensures var a1 := Do(a, Free(0)).arena;
      && |a1.store.pool.free| == s.numBlocks && AllHeld(a1) == multiset{} && |a1.caches| == 1
      && a1.caches[0].table == EMPTY_TABLE && |a1.store.kv| == s.layers && a1.store.pool.blockSize == s.blockSize
  {
    hide Inv;
    var a1 := Do(a, Free(0)).arena;
    FreeStep(a, [xss], 0, kvOf);
    CallSole(a, Free(0));
    HoldsItAll(a);
    HoldsItAll(a1);
    assert a1.caches[..0] == [] && HeldBy(a1.caches[..0]) == multiset{};
    assert HeldBy(a1.caches) == HeldBy(a1.caches[..0]) + Bag(a1.caches[0]);
  }

  /** For any number of layers and any block size: a sequence of two or more blocks is prefilled and swapped
      out, which leaves the whole pool free. Taken back with a head count that is not its block count, it is
      refused, and that many blocks are then referred to by nobody and free for nobody; taken back with its
      block count, it comes back. */
  lemma HeadCountLosesBlocks(s: Shape, zero: KV, first: nat, xss: Hist, n: nat, heads: nat, kvOf: Oracle) returns (a: Arena)
    requires s.layers > 0 && s.blockSize > 0 && |xss| == s.layers && forall k :: 0 <= k < |xss| ==> |xss[k]| == n
    requires 1 < CeilDiv(n, s.blockSize) <= s.numBlocks && 0 < heads <= s.numBlocks && heads != CeilDiv(n, s.blockSize)
    ensures Reaches(Empty(s, zero), [], Prefill(first, xss), a, [Owner(first, n, n, xss)], kvOf)
    ensures a.store.pool.blockSize > 0 && |a.caches| == 1
    ensures var t := a.caches[0].table;
      var parked := SwapOut(a.store, t.blocks, t.numTokens).result;
      var a1 := Do(a, Free(0)).arena;
      && |t.blocks| == CeilDiv(n, s.blockSize) && parked.Ok? && |a1.store.pool.free| == s.numBlocks
      && SwapIn(a1.store, parked.value, |t.blocks|).result.Ok?
      && var o := SwapIn(a1.store, parked.value, heads);
      && o.result == Err(ShapeError)
      && |o.store.pool.free| + heads == s.numBlocks
      && exists leaked: seq<Block> :: |leaked| == heads && P.Exact(o.store.pool, multiset(leaked))
  {
    hide Inv, Reaches, CeilDiv, Empty, Prefill, Sole, SwapIn, SwapOut, P.Exact, Do, Parked, AllHeld;
    a := Prefilled(s, zero, first, xss, n, kvOf);
    AllFree(a, s, first, xss, n, kvOf);
    assert Boundary(a.caches[0], xss);
    SwapOutParks(a, [xss], 0, kvOf);
    var t, a1 := a.caches[0].table, Do(a, Free(0)).arena;
    var record := SwapOut(a.store, t.blocks, t.numTokens).result.value;
    var hs1 := [xss][0 := NoHist(s.layers)];
    SwapInExact(a1, hs1, 0, kvOf, record, xss, |t.blocks|, |t.blocks|);
    SwapInExact(a1, hs1, 0, kvOf, record, xss, |t.blocks|, heads);
    var o := SwapIn(a1.store, record, heads);
    var leaked: seq<Block> :| |leaked| == heads && P.Exact(o.store.pool, AllHeld(a1) + multiset(leaked));
    assert AllHeld(a1) + multiset(leaked) == multiset(leaked);
  }
}
