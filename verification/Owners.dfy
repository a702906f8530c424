/** The abstract side of the arena: what each sequence's owner knows without looking at any table. Which
    calls it may make, what they answer and what it knows afterwards are stated with that. */
module Owners {
  import opened Common
  import opened Tensors
  import opened Paging
  import opened PagingProofs
  import opened WriteCosts
  import opened Prefixes
  import opened PrefixProofs
  import opened Arenas
  import opened ArenaProofs

  /** One sequence: the model layer its cache was asked to start at, the tokens it claimed, how many of them
      the last forward brought, and, layer by layer, what a private contiguous cache would hold. */
  datatype Owner = Owner(first: nat, tokens: nat, pending: nat, hist: Hist)

  ghost function Hists(os: seq<Owner>): (hs: seq<Hist>)
    ensures |hs| == |os| && forall id :: 0 <= id < |os| ==> hs[id] == os[id].hist
  {
    seq(|os|, id requires 0 <= id < |os| => os[id].hist)
  }

  /** Between forwards every layer holds all the tokens claimed. */
  ghost predicate Between(o: Owner) {
    forall l :: 0 <= l < |o.hist| ==> |o.hist[l]| == o.tokens
  }

  /** What the callers of these classes keep to, over `layers` layers: a forward updates its first layer
      between forwards and each later layer once, with the same tokens; forks and registrations happen
      between forwards; what is registered is the KV of the registered tokens. */
  ghost predicate Enabled(layers: nat, os: seq<Owner>, op: Op, kvOf: Oracle) {
    match op
    case New(_) => true
    case Ensure(id, _) => id < |os|
    case Free(id) => id < |os|
    case Fork(id) => id < |os| && Between(os[id])
    case Register(id, tokens) => id < |os| && Between(os[id]) && HistIs(os[id].hist, tokens, kvOf)
    case Adopt(_, _) => true
    case Clear => true
    case Update(id, layer, xs) => id < |os| && MayUpdate(layers, os[id], layer, |xs|)
  }

  ghost predicate MayUpdate(layers: nat, o: Owner, layer: nat, n: nat) {
    && o.first <= layer < o.first + layers && |o.hist| == layers
    && if layer == o.first then Between(o)
       else |o.hist[0]| == o.tokens && n == o.pending <= o.tokens && |o.hist[layer - o.first]| + n == o.tokens
  }

  /** The table as its owner reckons: the blocks it was given, and the tokens it claimed. */
  ghost function Claimed(a: Arena, os: seq<Owner>, id: nat): Table
    requires id < |os|
  {
    Table(if id < |a.caches| then a.caches[id].table.blocks else [], os[id].tokens)
  }

  /** Blocks lacking for `n` more positions. */
  ghost function Lacking(a: Arena, os: seq<Owner>, id: nat, n: nat): nat
    requires id < |os| && a.store.pool.blockSize > 0
  {
    Missing(Claimed(a, os, id), a.store.pool.blockSize, n)
  }

  /** What writing `n` positions takes out of the pool: at the first layer the blocks lacking, and one for each
      shared block in the range; nothing at the layers after it. */
  ghost function Cost(a: Arena, os: seq<Owner>, id: nat, layer: nat, n: nat): nat
    requires id < |os| && a.store.pool.blockSize > 0
  {
    if layer != os[id].first then 0
    else Lacking(a, os, id, n) + Splits(AllHeld(a), RangeBlocks(Claimed(a, os, id), a.store.pool.blockSize, n))
  }

  ghost predicate Affordable(a: Arena, os: seq<Owner>, id: nat, layer: nat, n: nat)
    requires id < |os| && a.store.pool.blockSize > 0
  {
    Cost(a, os, id, layer, n) <= |a.store.pool.free|
  }

  /** An owner after writing `xs` at a layer: the first layer claims the tokens, as soon as the blocks lacking
      are there; the history grows when everything is. */
  ghost function Wrote(o: Owner, layer: nat, xs: seq<KV>, claims: bool, pays: bool): Owner
    requires o.first <= layer < o.first + |o.hist|
  {
    var l := layer - o.first;
    var o1 := if l > 0 then o else o.(pending := |xs|, tokens := o.tokens + if claims then |xs| else 0);
    if pays then o1.(hist := o.hist[l := o.hist[l] + xs]) else o1
  }

  /** Every owner after a call: an update that can be paid for appends to one layer of one history, a fork
      copies its parent, a lookup starts a sequence at the KV of the longest cached prefix. */
  ghost function Abstract(a: Arena, os: seq<Owner>, op: Op, kvOf: Oracle): seq<Owner>
    requires a.store.pool.blockSize > 0 && Enabled(|a.store.kv|, os, op, kvOf)
  {
    match op
    case New(first) => os + [Owner(first, 0, 0, NoHist(|a.store.kv|))]
    case Ensure(_, _) => os
    case Free(id) => os[id := os[id].(tokens := 0, hist := NoHist(|a.store.kv|))]
    case Fork(id) => os + [os[id].(pending := 0)]
    case Register(_, _) => os
    case Clear => os
    case Adopt(tokens, first) =>
      var n := CachedTokens(a, tokens);
      os + [Owner(first, n, 0, PrefixHist(kvOf, |a.store.kv|, tokens, n))]
    case Update(id, layer, xs) =>
      os[id := Wrote(os[id], layer, xs, Lacking(a, os, id, |xs|) <= |a.store.pool.free|, Affordable(a, os, id, layer, |xs|))]
  }

  /** What a call returns, in terms of the owners, and exactly when it fails; and what it leaves to see in
      the pool. */
  ghost predicate Answer(a: Arena, os: seq<Owner>, op: Op, d: Done, kvOf: Oracle)
    requires a.store.pool.blockSize > 0 && Enabled(|a.store.kv|, os, op, kvOf)
  {
    && |d.arena.caches| == |a.caches| + (if op.New? || op.Fork? || op.Adopt? then 1 else 0)
    && match op
       case Update(id, layer, xs) =>
         d.result == (if Affordable(a, os, id, layer, |xs|) then Ok(os[id].hist[layer - os[id].first] + xs) else Err(OutOfBlocks))
         && (d.result.Ok? ==> |d.arena.store.pool.free| + Cost(a, os, id, layer, |xs|) == |a.store.pool.free|)
       case Ensure(id, n) =>
         var has, needs := |Claimed(a, os, id).blocks|, CeilDiv(n, a.store.pool.blockSize);
         d.result == (if needs <= has + |a.store.pool.free| then Ok([]) else Err(OutOfBlocks))
         && (d.result.Ok? ==> |Claimed(d.arena, os, id).blocks| == Max(has, needs))
       case Free(id) => d.result == Ok([]) && Claimed(d.arena, os, id).blocks == []
       case Clear => d.result == Ok([]) && d.arena.entries == []
       case _ => d.result == Ok([])
  }

  /** The caches are what their owners take them for. */
  ghost predicate Agrees(a: Arena, os: seq<Owner>) {
    |os| == |a.caches| && forall id :: 0 <= id < |os| ==> Knows(os[id], a.caches[id])
  }

  predicate Knows(o: Owner, c: Cache) {
    o.first == c.firstLayer && o.tokens == c.table.numTokens && o.pending == c.pending
  }

  ghost predicate Tracked(a: Arena, os: seq<Owner>, kvOf: Oracle) {
    Inv(a, Hists(os), kvOf) && Agrees(a, os)
  }

  // -------------------------------------------------------------------------------- one call

  lemma TrackedFacts(a: Arena, os: seq<Owner>, kvOf: Oracle)
    requires Tracked(a, os, kvOf)
    ensures a.store.pool.blockSize > 0 && |os| == |a.caches| && |a.store.kv| > 0
    ensures forall id :: 0 <= id < |os| ==> Knows(os[id], a.caches[id]) && |os[id].hist| == |a.store.kv|
    ensures forall id :: 0 <= id < |os| ==> (Between(os[id]) <==> Boundary(a.caches[id], os[id].hist))
    ensures forall id :: 0 <= id < |os| ==> Claimed(a, os, id) == a.caches[id].table
  {
    hide P.Exact, CacheInv, Others, AllHeld, Midway;
    forall id | 0 <= id < |os| ensures |os[id].hist| == |a.store.kv| {
      assert Tenant(a, id, Hists(os)[id]);
    }
  }

  lemma HistsSet(os: seq<Owner>, id: nat, o: Owner)
    requires id < |os|
    ensures Hists(os[id := o]) == Hists(os)[id := o.hist]
  {
  }

  lemma HistsPush(os: seq<Owner>, o: Owner)
    ensures Hists(os + [o]) == Hists(os) + [o.hist]
  {
  }

  /** One call, any call: the invariant survives, the owners move as `Abstract` says, and an update returns
      exactly its owner's history with the new tokens at the end. Only growing and writing a forward's
      first layer can fail, only for want of blocks, and exactly when fewer are free than the call needs. */
  lemma StepRefines(a: Arena, os: seq<Owner>, op: Op, kvOf: Oracle)
    requires Tracked(a, os, kvOf)
    requires Enabled(|a.store.kv|, os, op, kvOf)
    ensures a.store.pool.blockSize > 0
    ensures var d := Call(a, op);
      Tracked(d.arena, Abstract(a, os, op, kvOf), kvOf) && Answer(a, os, op, d, kvOf)
  {
    hide Inv, Missing, Splits, RangeBlocks, CeilDiv, AllHeld, Paging.Update, EnsureCapacity, ForkTable, FreeTable, Prefixes.Register, Lookup, Prefixes.Clear, Boundary, Between, HistIs, CachedTokens, PrefixHist;
    TrackedFacts(a, os, kvOf);
    var hs := Hists(os);
    match op
    case New(first) =>
      NewStep(a, hs, first, kvOf);
      HistsPush(os, Owner(first, 0, 0, NoHist(|a.store.kv|)));
    case Ensure(id, n) => EnsureStep(a, hs, id, n, kvOf);
    case Free(id) =>
      FreeStep(a, hs, id, kvOf);
      HistsSet(os, id, os[id].(tokens := 0, hist := NoHist(|a.store.kv|)));
    case Fork(id) =>
      ForkStep(a, hs, id, kvOf);
      HistsPush(os, os[id].(pending := 0));
    case Register(id, tokens) => RegisterStep(a, hs, id, tokens, kvOf);
    case Adopt(tokens, first) =>
      AdoptStep(a, hs, tokens, first, kvOf);
      var n := CachedTokens(a, tokens);
      HistsPush(os, Owner(first, n, 0, PrefixHist(kvOf, |a.store.kv|, tokens, n)));
    case Clear => ClearStep(a, hs, kvOf);
    case Update(id, layer, xs) => UpdateRefines(a, os, id, layer, xs, kvOf);
  }

  lemma UpdateRefines(a: Arena, os: seq<Owner>, id: nat, layer: nat, xs: seq<KV>, kvOf: Oracle)
    requires Tracked(a, os, kvOf) && a.store.pool.blockSize > 0
    requires Enabled(|a.store.kv|, os, Update(id, layer, xs), kvOf)
    ensures var op := Update(id, layer, xs);
      Tracked(Call(a, op).arena, Abstract(a, os, op, kvOf), kvOf) && Answer(a, os, op, Call(a, op), kvOf)
  {
    hide Inv, Missing, Splits, RangeBlocks, AllHeld, Paging.Update, Boundary, Between;
    TrackedFacts(a, os, kvOf);
    HistsSet(os, id, Abstract(a, os, Update(id, layer, xs), kvOf)[id]);
    if layer == os[id].first {
      FirstLayerStep(a, Hists(os), id, xs, kvOf);
      assert Hists(os)[id := os[id].hist] == Hists(os);
    } else {
      LaterLayerStep(a, Hists(os), id, layer, xs, kvOf);
    }
  }
}
