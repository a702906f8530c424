/** One forward over a paged cache in a shared arena is the forward over a private history. */
module ForwardProofs {
  import opened Common
  import opened Tensors
  import opened Decoders
  import opened Paging
  import opened Arenas
  import opened ArenaProofs
  import opened Requests
  import opened Scheduling
  import opened Serving

  /** No prefix cache takes part in serving, so what it would hold does not matter. */
  ghost const NOTHING: Oracle := (l, tokens) => KV([], [])

  ghost predicate ArenaOk(d: Decoder, a: Arena, hs: seq<Hist>) {
    && d.layers > 0 && Inv(a, hs, NOTHING) && |hs| == |a.caches|
    && |a.store.kv| == d.layers && a.entries == []
    && forall c :: 0 <= c < |a.caches| ==> a.caches[c].firstLayer == 0
  }

  /** Cache `c` moved; every other tenant's cache and history are as they were. */
  ghost predicate Moved(a: Arena, hs: seq<Hist>, a': Arena, hs': seq<Hist>, c: nat)
    requires c < |a.caches| && |hs| == |a.caches|
  {
    && |a'.caches| == |a.caches| && |hs'| == |hs|
    && forall j :: 0 <= j < |a.caches| && j != c ==> a'.caches[j] == a.caches[j] && hs'[j] == hs[j]
  }

  lemma OkAfter(d: Decoder, a: Arena, hs: seq<Hist>, a': Arena, hs': seq<Hist>, c: nat)
    requires ArenaOk(d, a, hs) && c < |a.caches|
    requires OnlyMoved(a, a', c) && Inv(a', hs', NOTHING) && |hs'| == |hs|
    requires forall j :: 0 <= j < |hs| && j != c ==> hs'[j] == hs[j]
    ensures ArenaOk(d, a', hs') && Moved(a, hs, a', hs', c) && |a'.caches| == |a.caches|
  {
    hide Inv;
  }

  lemma OkFacts(d: Decoder, a: Arena, hs: seq<Hist>, c: nat)
    requires ArenaOk(d, a, hs) && c < |a.caches|
    ensures Inv(a, hs, NOTHING) && a.store.pool.blockSize > 0 && |hs| == |a.caches| && |hs[c]| == d.layers
    ensures a.caches[c].firstLayer == 0 && |a.store.kv| == d.layers > 0
  {
    InvHeld(a, hs, NOTHING, c);
  }

  /** The state of cache `c` when `l` layers of the forward of `ys` after `xs` are done. */
  ghost predicate AtLayer(d: Decoder, c: Cache, h: Hist, xs: seq<Hidden>, ys: seq<Hidden>, l: nat) {
    && Extended(d, h, xs, ys, l)
    && if l == 0 then c.table.numTokens == |xs|
       else c.table.numTokens == |xs| + |ys| && c.pending == |ys|
  }

  /** A device that gives out after `fuel` pieces leaves exactly so many layers more done, the fault raised; one
      that lasts leaves all of them, and has used one piece for each and one for what follows. */
  ghost predicate StruckAfter(d: Decoder, f: Passed, c: nat, hs: seq<Hist>, xs: seq<Hidden>, ys: seq<Hidden>, l: nat, fuel: nat) {
    && l <= d.layers && c < |f.arena.caches| && c < |hs|
    && f.error == (if l + fuel <= d.layers then Some(RuntimeFault) else None)
    && AtLayer(d, f.arena.caches[c], hs[c], xs, ys, if l + fuel <= d.layers then l + fuel else d.layers)
    && (f.error.None? ==> f.fuel + (d.layers - l) + 1 == fuel)
  }

  lemma {:induction false} PagedForwardCorrect(d: Decoder, a: Arena, hs: seq<Hist>, c: nat, xs: seq<Hidden>, ys: seq<Hidden>, hidden: seq<Hidden>, l: nat, fuel: nat)
    returns (hs': seq<Hist>)
    requires ArenaOk(d, a, hs) && c < |a.caches| && l <= d.layers
    requires AtLayer(d, a.caches[c], hs[c], xs, ys, l)
    requires hidden == Hiddens(d, xs + ys, l)[|xs|..]
    ensures var f := PagedForward(d, a, c, |xs|, hidden, l, fuel);
      && ArenaOk(d, f.arena, hs') && Moved(a, hs, f.arena, hs', c)
      && (f.error.None? ==>
            && hs'[c] == History(d, xs + ys) && TokensIn(f.arena, c) == |xs| + |ys|
            && f.hidden == Hiddens(d, xs + ys, d.layers)[|xs|..])
      && ((f.error == Some(OutOfBlocks) && l == 0) || StruckAfter(d, f, c, hs', xs, ys, l, fuel))
    decreases d.layers - l
  {
    hide ArenaOk, Hiddens, LayerKV, Call, History, ChunkAttend, ChunkKV, Extended, Moved, OnlyMoved;
    OkFacts(d, a, hs, c);
    if l == d.layers || fuel == 0 {
      hs' := hs;
      MovedRefl(a, hs, c);
      if l == d.layers {
        Finished(d, hs[c], xs, ys);
      }
    } else {
      var new_ := ChunkKV(d, l, |xs|, hidden);
      var hs1 := hs[c := hs[c][l := hs[c][l] + new_]];
      LayerStep(d, a, hs, c, xs, ys, l, new_);
      var u := Call(a, Update(c, l, new_));
      if u.result.Ok? {
        OkAfter(d, a, hs, u.arena, hs1, c);
        NextLayer(d, hs[c], xs, ys, l, hidden);
        hs' := PagedForwardCorrect(d, u.arena, hs1, c, xs, ys, ChunkAttend(d, l, |xs|, hidden, u.result.value), l + 1, fuel - 1);
        var f := PagedForward(d, a, c, |xs|, hidden, l, fuel);
        MovedTrans(a, hs, u.arena, hs1, f.arena, hs', c);
      } else {
        hs' := hs;
        OkAfter(d, a, hs, u.arena, hs, c);
      }
    }
  }

  lemma MovedRefl(a: Arena, hs: seq<Hist>, c: nat)
    requires c < |a.caches| && |hs| == |a.caches|
    ensures Moved(a, hs, a, hs, c)
  {
  }

  lemma MovedTrans(a: Arena, hs: seq<Hist>, a1: Arena, hs1: seq<Hist>, a2: Arena, hs2: seq<Hist>, c: nat)
    requires c < |a.caches| && |hs| == |a.caches| && Moved(a, hs, a1, hs1, c) && Moved(a1, hs1, a2, hs2, c)
    ensures Moved(a, hs, a2, hs2, c)
  {
  }

  lemma NextLayer(d: Decoder, h: Hist, xs: seq<Hidden>, ys: seq<Hidden>, l: nat, hidden: seq<Hidden>)
    requires l < d.layers && Extended(d, h, xs, ys, l) && hidden == Hiddens(d, xs + ys, l)[|xs|..]
    ensures var appended := h[l] + ChunkKV(d, l, |xs|, hidden);
      && Extended(d, h[l := appended], xs, ys, l + 1)
      && ChunkAttend(d, l, |xs|, hidden, appended) == Hiddens(d, xs + ys, l + 1)[|xs|..]
  {
    hide Hiddens, LayerKV, ChunkKV, ChunkAttend;
    ChunkLayer(d, xs, ys, l, hidden);
  }

  lemma Finished(d: Decoder, h: Hist, xs: seq<Hidden>, ys: seq<Hidden>)
    requires Extended(d, h, xs, ys, d.layers)
    ensures h == History(d, xs + ys)
  {
  }

  lemma LayerStep(d: Decoder, a: Arena, hs: seq<Hist>, c: nat, xs: seq<Hidden>, ys: seq<Hidden>, l: nat, new_: seq<KV>)
    requires Inv(a, hs, NOTHING) && c < |a.caches| && |hs| == |a.caches| && a.store.pool.blockSize > 0
    requires |hs[c]| == |a.store.kv| == d.layers && a.caches[c].firstLayer == 0 && l < d.layers
    requires AtLayer(d, a.caches[c], hs[c], xs, ys, l) && |new_| == |ys|
    ensures var u := Call(a, Update(c, l, new_));
      && OnlyMoved(a, u.arena, c)
      && (u.result.Err? ==> Inv(u.arena, hs, NOTHING) && u.result.error == OutOfBlocks && l == 0)
      && (u.result.Ok? ==>
            && u.result.value == hs[c][l] + new_
            && Inv(u.arena, hs[c := hs[c][l := hs[c][l] + new_]], NOTHING)
            && u.arena.caches[c].pending == |ys| && u.arena.caches[c].table.numTokens == |xs| + |ys|)
  {
    hide Inv, LayerKV, Do, OnlyMoved;
    ExtendedLengths(d, hs[c], xs, ys, l);
    if l == 0 {
      assert Boundary(a.caches[c], hs[c]);
      FirstLayerStep(a, hs, c, new_, NOTHING);
    } else {
      LaterLayerStep(a, hs, c, l, new_, NOTHING);
    }
  }

  lemma ExtendedLengths(d: Decoder, h: Hist, xs: seq<Hidden>, ys: seq<Hidden>, l: nat)
    requires Extended(d, h, xs, ys, l)
    ensures forall k :: 0 <= k < d.layers ==> |h[k]| == |xs| + if k < l then |ys| else 0
  {
  }

  /** Growing a cache and running a chunk on it, any other tenants notwithstanding: unless the pool
      or the device gives out, the cache then holds the history of everything fed so far and the
      output is the greedy next token after it. */
  lemma FeedCorrect(d: Decoder, a: Arena, hs: seq<Hist>, c: nat, xs: seq<Hidden>, ys: seq<Hidden>, fuel: nat)
    returns (hs': seq<Hist>)
    requires ArenaOk(d, a, hs) && c < |a.caches| && ys != []
    requires hs[c] == History(d, xs) && TokensIn(a, c) == |xs|
    ensures var f := Feed(d, a, c, ys, fuel);
      && ArenaOk(d, f.arena, hs') && Moved(a, hs, f.arena, hs', c)
      && (f.error.None? ==>
            && hs'[c] == History(d, xs + ys) && TokensIn(f.arena, c) == |xs| + |ys|
            && |f.hidden| == |ys| && d.pick(Last(f.hidden)) == Next(d, xs + ys))
  {
    hide ArenaOk, Hiddens, LayerKV, Do, Inv, PagedForward;
    OkFacts(d, a, hs, c);
    EnsureStep(a, hs, c, |xs| + |ys|, NOTHING);
    var grown := Call(a, Ensure(c, |xs| + |ys|));
    OkAfter(d, a, hs, grown.arena, hs, c);
    if grown.result.Err? {
      hs' := hs;
    } else {
      Started(d, xs, ys);
      hs' := PagedForwardCorrect(d, grown.arena, hs, c, xs, ys, ys, 0, fuel);
      var f := PagedForward(d, grown.arena, c, |xs|, ys, 0, fuel);
      if f.error.None? {
        assert Last(f.hidden) == Hiddens(d, xs + ys, d.layers)[|xs + ys| - 1];
      }
    }
  }

  lemma Started(d: Decoder, xs: seq<Hidden>, ys: seq<Hidden>)
    ensures Hiddens(d, xs + ys, 0)[|xs|..] == ys
    ensures Extended(d, History(d, xs), xs, ys, 0)
  {
  }
}
