/** When admission's promise is kept: the blocks running requests were promised but have not claimed
    never exceed the free ones, so growing a cache never fails. */
module ExhaustionProofs {
  import opened Common
  import opened Tensors
  import opened Decoders
  import opened Paging
  import opened PagingProofs
  import opened Arenas
  import opened ArenaProofs
  import opened ArenaRuns
  import opened Requests
  import opened Scheduling
  import opened Serving
  import opened ForwardProofs
  import X = ExecutionProofs
  import opened LifecycleProofs
  import opened EngineProofs
  import opened EngineRuns
  import opened Shapes
  import P = Pools

  // ------------------------------------------------------------------------------ a forward

  lemma {:induction false} HeldByBlocks(caches: seq<Cache>, caches': seq<Cache>)
    requires |caches'| == |caches|
    requires forall i :: 0 <= i < |caches| ==> caches'[i].table.blocks == caches[i].table.blocks
    ensures HeldBy(caches') == HeldBy(caches)
  {
    if caches != [] {
      HeldByBlocks(caches[..|caches| - 1], caches'[..|caches| - 1]);
    }
  }

  /** A forward into claimed, unshared blocks claims and releases nothing, and only the device can
      stop it. */
  ghost predicate NoClaim(a: Arena, a': Arena, c: nat)
    requires c < |a.caches|
  {
    && |a'.caches| == |a.caches| && a'.entries == a.entries
    && a'.store.pool == a.store.pool && a'.caches[c].table.blocks == a.caches[c].table.blocks
  }

  lemma {:induction false} ForwardRoom(d: Decoder, a: Arena, hs: seq<Hist>, c: nat, xs: seq<Hidden>, ys: seq<Hidden>, hidden: seq<Hidden>, l: nat, fuel: nat)
    requires ArenaOk(d, a, hs) && c < |a.caches| && l <= d.layers && a.store.pool.blockSize > 0
    requires AtLayer(d, a.caches[c], hs[c], xs, ys, l)
    requires hidden == Hiddens(d, xs + ys, l)[|xs|..]
    requires l == 0 ==> Unshared(AllHeld(a)) && CeilDiv(|xs| + |ys|, a.store.pool.blockSize) <= |a.caches[c].table.blocks|
    ensures var f := PagedForward(d, a, c, |xs|, hidden, l, fuel);
      && NoClaim(a, f.arena, c) && f.error != Some(OutOfBlocks)
      && (fuel > d.layers - l ==> f.error.None? && f.fuel == fuel - (d.layers - l) - 1)
    decreases d.layers - l
  {
    hide ArenaOk, Hiddens, LayerKV, Call, History, ChunkAttend, ChunkKV, Extended, Moved, OnlyMoved, AllHeld, Unshared, CeilDiv;
    OkFacts(d, a, hs, c);
    OkEntries(d, a, hs);
    if l < d.layers && fuel > 0 {
      var new_ := ChunkKV(d, l, |xs|, hidden);
      var hs1 := hs[c := hs[c][l := hs[c][l] + new_]];
      LayerStep(d, a, hs, c, xs, ys, l, new_);
      LayerRoom(d, a, hs, c, xs, ys, l, new_);
      var u := Call(a, Update(c, l, new_));
      OkAfter(d, a, hs, u.arena, hs1, c);
      OkEntries(d, u.arena, hs1);
      OkFacts(d, u.arena, hs1, c);
      NextLayer(d, hs[c], xs, ys, l, hidden);
      ForwardRoom(d, u.arena, hs1, c, xs, ys, ChunkAttend(d, l, |xs|, hidden, u.result.value), l + 1, fuel - 1);
    }
  }

  lemma OkEntries(d: Decoder, a: Arena, hs: seq<Hist>)
    requires ArenaOk(d, a, hs)
    ensures a.entries == [] && |hs| == |a.caches|
  {
  }

  lemma LayerRoom(d: Decoder, a: Arena, hs: seq<Hist>, c: nat, xs: seq<Hidden>, ys: seq<Hidden>, l: nat, new_: seq<KV>)
    requires Inv(a, hs, NOTHING) && c < |a.caches| && |hs| == |a.caches| && a.store.pool.blockSize > 0
    requires |hs[c]| == |a.store.kv| == d.layers && a.caches[c].firstLayer == 0 && l < d.layers
    requires AtLayer(d, a.caches[c], hs[c], xs, ys, l) && |new_| == |ys|
    requires l == 0 ==> Unshared(AllHeld(a)) && CeilDiv(|xs| + |ys|, a.store.pool.blockSize) <= |a.caches[c].table.blocks|
    ensures var u := Call(a, Update(c, l, new_));
      u.result.Ok? && u.arena.store.pool == a.store.pool && u.arena.caches[c].table.blocks == a.caches[c].table.blocks
  {
    hide Inv, LayerKV, Do, OnlyMoved, AllHeld, Unshared, CeilDiv;
    ExtendedLengths(d, hs[c], xs, ys, l);
    if l == 0 {
      assert Boundary(a.caches[c], hs[c]);
      FirstLayerRoom(a, hs, c, new_, NOTHING);
    } else {
      LaterLayerStep(a, hs, c, l, new_, NOTHING);
    }
  }

  ghost function Claimed(a: Arena, c: nat): nat {
    if c < |a.caches| then |a.caches[c].table.blocks| else 0
  }

  /** Growing and running a chunk that fits in what is free: it claims exactly the missing blocks. */
  lemma FeedRoom(d: Decoder, a: Arena, hs: seq<Hist>, c: nat, xs: seq<Hidden>, ys: seq<Hidden>, fuel: nat)
    requires ArenaOk(d, a, hs) && c < |a.caches| && a.store.pool.blockSize > 0 && Unshared(AllHeld(a))
    requires c < |hs| && hs[c] == History(d, xs) && TokensIn(a, c) == |xs|
    requires CeilDiv(|xs| + |ys|, a.store.pool.blockSize) <= Claimed(a, c) + |a.store.pool.free|
    ensures var f := Feed(d, a, c, ys, fuel);
      && f.error != Some(OutOfBlocks) && (fuel > d.layers ==> f.error.None? && f.fuel == fuel - d.layers - 1)
      && |f.arena.caches| == |a.caches|
      && Claimed(f.arena, c) == Max(Claimed(a, c), CeilDiv(|xs| + |ys|, a.store.pool.blockSize))
      && |f.arena.store.pool.free| + Claimed(f.arena, c) == |a.store.pool.free| + Claimed(a, c)
      && (forall j :: 0 <= j < |a.caches| && j != c ==> Claimed(f.arena, j) == Claimed(a, j))
      && Unshared(AllHeld(f.arena))
  {
    hide ArenaOk, Hiddens, LayerKV, Do, Inv, PagedForward, AllHeld, Unshared, CeilDiv;
    OkFacts(d, a, hs, c);
    var n := |xs| + |ys|;
    EnsureStep(a, hs, c, n, NOTHING);
    EnsureRoom(a, hs, c, n, NOTHING);
    var grown := Call(a, Ensure(c, n));
    OkAfter(d, a, hs, grown.arena, hs, c);
    Started(d, xs, ys);
    ForwardRoom(d, grown.arena, hs, c, xs, ys, ys, 0, fuel);
    var f := PagedForward(d, grown.arena, c, |xs|, ys, 0, fuel);
    var hs' := PagedForwardCorrect(d, grown.arena, hs, c, xs, ys, ys, 0, fuel);
    SameHeld(grown.arena, f.arena, hs, hs', c);
  }

  lemma SameHeld(a: Arena, a': Arena, hs: seq<Hist>, hs': seq<Hist>, c: nat)
    requires c < |a.caches| && |hs| == |a.caches| && NoClaim(a, a', c) && Moved(a, hs, a', hs', c)
    ensures AllHeld(a') == AllHeld(a)
    ensures forall j :: 0 <= j < |a.caches| ==> Claimed(a', j) == Claimed(a, j)
  {
    HeldByBlocks(a.caches, a'.caches);
  }

  // ------------------------------------------------------------------------------- promises

  ghost function NeededBy(bs: nat, r: Request): nat {
    if bs > 0 then CeilDiv(|r.prompt| + r.maxNew, bs) else 0
  }

  ghost function Has(a: Arena, r: Request): nat {
    match r.cache
    case None => 0
    case Some(c) => Claimed(a, c)
  }

  /** What a request was promised at admission and has not claimed yet. */
  ghost function Owed(a: Arena, r: Request): int {
    NeededBy(a.store.pool.blockSize, r) - Has(a, r)
  }

  ghost function Promised(reqs: map<Id, Request>, a: Arena, ids: seq<Id>): int {
    if ids == [] then 0 else Owed(a, At(reqs, ids[0])) + Promised(reqs, a, ids[1..])
  }

  /** Nobody has claimed more than promised, and everything still promised is free. */
  ghost predicate Room(reqs: map<Id, Request>, a: Arena, live: seq<Id>) {
    && a.store.pool.blockSize > 0 && Unshared(AllHeld(a))
    && (forall id :: id in live ==> Owed(a, At(reqs, id)) >= 0)
    && Promised(reqs, a, live) <= |a.store.pool.free|
  }

  lemma {:induction false} PromisedSame(reqs: map<Id, Request>, a: Arena, reqs': map<Id, Request>, a': Arena, ids: seq<Id>)
    requires forall id :: id in ids ==> Owed(a', At(reqs', id)) == Owed(a, At(reqs, id))
    ensures Promised(reqs', a', ids) == Promised(reqs, a, ids)
  {
    if ids != [] {
      assert ids[0] in ids && forall id :: id in ids[1..] ==> id in ids;
      PromisedSame(reqs, a, reqs', a', ids[1..]);
    }
  }

  lemma {:induction false} PromisedMove(reqs: map<Id, Request>, a: Arena, reqs': map<Id, Request>, a': Arena, ids: seq<Id>, id: Id)
    requires Distinct(ids) && id in ids
    requires forall j :: j in ids && j != id ==> Owed(a', At(reqs', j)) == Owed(a, At(reqs, j))
    ensures Promised(reqs', a', ids) == Promised(reqs, a, ids) + Owed(a', At(reqs', id)) - Owed(a, At(reqs, id))
  {
    assert ids == [ids[0]] + ids[1..] && Distinct(ids[1..]) && ids[0] !in ids[1..];
    if ids[0] == id {
      PromisedSame(reqs, a, reqs', a', ids[1..]);
    } else {
      PromisedMove(reqs, a, reqs', a', ids[1..], id);
    }
  }

  lemma {:induction false} PromisedRemove(reqs: map<Id, Request>, a: Arena, ids: seq<Id>, id: Id)
    requires id in ids
    ensures Promised(reqs, a, Remove(ids, id)) == Promised(reqs, a, ids) - Owed(a, At(reqs, id))
  {
    if ids[0] != id {
      assert ids == [ids[0]] + ids[1..];
      PromisedRemove(reqs, a, ids[1..], id);
    }
  }

  lemma {:induction false} PromisedCovers(reqs: map<Id, Request>, a: Arena, ids: seq<Id>, id: Id)
    requires id in ids && forall j :: j in ids ==> Owed(a, At(reqs, j)) >= 0
    ensures Owed(a, At(reqs, id)) <= Promised(reqs, a, ids)
  {
    assert forall j :: j in ids[1..] ==> j in ids;
    PromisedNonNegative(reqs, a, ids[1..]);
    if ids[0] != id {
      assert ids == [ids[0]] + ids[1..] && ids[0] in ids;
      PromisedCovers(reqs, a, ids[1..], id);
    }
  }

  lemma {:induction false} PromisedNonNegative(reqs: map<Id, Request>, a: Arena, ids: seq<Id>)
    requires forall j :: j in ids ==> Owed(a, At(reqs, j)) >= 0
    ensures Promised(reqs, a, ids) >= 0
  {
    if ids != [] {
      assert ids[0] in ids && forall j :: j in ids[1..] ==> j in ids;
      PromisedNonNegative(reqs, a, ids[1..]);
    }
  }

  lemma {:induction false} PromisedAtMost(reqs: map<Id, Request>, a: Arena, ids: seq<Id>, most: nat)
    requires forall j :: j in ids ==> Owed(a, At(reqs, j)) <= most
    ensures Promised(reqs, a, ids) <= |ids| * most
  {
    hide Owed;
    if ids != [] {
      assert ids[0] in ids && forall j :: j in ids[1..] ==> j in ids;
      PromisedAtMost(reqs, a, ids[1..], most);
      OneMore(|ids[1..]|, most);
    }
  }

  lemma OneMore(n: nat, most: nat)
    ensures (n + 1) * most == most + n * most
  {
  }

  lemma {:induction false} PromisedAppend(reqs: map<Id, Request>, a: Arena, ids: seq<Id>, id: Id)
    ensures Promised(reqs, a, ids + [id]) == Promised(reqs, a, ids) + Owed(a, At(reqs, id))
  {
    if ids == [] {
      assert ids + [id] == [id];
    } else {
      assert (ids + [id])[1..] == ids[1..] + [id];
      PromisedAppend(reqs, a, ids[1..], id);
    }
  }

  // -------------------------------------------------------------------------- one request runs

  /** One live request claimed some of what it was owed. */
  lemma ClaimKeepsRoom(reqs: map<Id, Request>, a: Arena, a': Arena, live: seq<Id>, id: Id)
    requires Room(reqs, a, live) && Distinct(live) && id in live && id in reqs && reqs[id].cache.Some?
    requires X.OwnCaches(reqs, live, |a.caches|)
    requires a'.store.pool.blockSize == a.store.pool.blockSize && Unshared(AllHeld(a')) && |a'.caches| == |a.caches|
    requires var c := reqs[id].cache.value;
      && Claimed(a', c) <= NeededBy(a.store.pool.blockSize, reqs[id])
      && |a'.store.pool.free| + Claimed(a', c) == |a.store.pool.free| + Claimed(a, c)
      && (forall j :: 0 <= j < |a.caches| && j != c ==> Claimed(a', j) == Claimed(a, j))
    ensures Room(reqs, a', live)
  {
    hide AllHeld, Unshared, NeededBy;
    forall j | j in live && j != id ensures Owed(a', At(reqs, j)) == Owed(a, At(reqs, j)) {
      assert j in reqs && reqs[j].cache != reqs[id].cache;
    }
    PromisedMove(reqs, a, reqs, a', live, id);
  }

  lemma CacheForRoom(d: Decoder, e: Exec, live: seq<Id>, hs: seq<Hist>, id: Id)
    requires X.ExecOk(d, e.reqs, e.arena, live, hs, {}) && id in live && id in e.reqs
    requires Room(e.reqs, e.arena, live)
    ensures var e1 := CacheFor(e, id); Room(e1.reqs, e1.arena, live) && e1.arena.store == e.arena.store
  {
    hide ArenaOk, Do, CeilDiv, Unshared;
    X.OkSize(d, e.arena, hs);
    if e.reqs[id].cache.None? {
      var a := e.arena;
      var e1 := CacheFor(e, id);
      X.NewOk(d, a, hs);
      NewStore(a);
      HeldPush(a.caches, Cache(EMPTY_TABLE, 0, 0));
      NewHeld(d, a, hs, e1.arena);
      OwedAlike(d, e, live, hs, id);
      PromisedSame(e.reqs, a, e1.reqs, e1.arena, live);
    }
  }

  lemma OwedAlike(d: Decoder, e: Exec, live: seq<Id>, hs: seq<Hist>, id: Id)
    requires X.ExecOk(d, e.reqs, e.arena, live, hs, {}) && id in live && id in e.reqs && e.reqs[id].cache.None?
    ensures var e1 := CacheFor(e, id);
      forall j :: j in live ==> Owed(e1.arena, At(e1.reqs, j)) == Owed(e.arena, At(e.reqs, j))
  {
    hide ArenaOk, CeilDiv;
    X.OkSize(d, e.arena, hs);
    var a, e1 := e.arena, CacheFor(e, id);
    assert e1.arena.caches == a.caches + [Cache(EMPTY_TABLE, 0, 0)] && e1.arena.store == a.store;
    forall j | j in live ensures Owed(e1.arena, At(e1.reqs, j)) == Owed(a, At(e.reqs, j)) {
      assert j in e.reqs;
      if j != id && e.reqs[j].cache.Some? {
        assert e.reqs[j].cache.value < |a.caches|;
      }
    }
  }

  lemma NewStore(a: Arena)
    ensures Call(a, New(0)).arena.store == a.store && Call(a, New(0)).arena.entries == a.entries
  {
  }

  lemma NewHeld(d: Decoder, a: Arena, hs: seq<Hist>, a': Arena)
    requires a'.caches == a.caches + [Cache(EMPTY_TABLE, 0, 0)] && a'.entries == a.entries
    ensures AllHeld(a') == AllHeld(a)
  {
    HeldPush(a.caches, Cache(EMPTY_TABLE, 0, 0));
    assert Bag(Cache(EMPTY_TABLE, 0, 0)) == multiset{};
  }

  /** Feeding a request up to `Held + |ys|` positions, all within what it was promised. */
  lemma FeedKeepsRoom(d: Decoder, e: Exec, live: seq<Id>, hs: seq<Hist>, id: Id, ys: seq<Hidden>)
    requires X.ExecOk(d, e.reqs, e.arena, live, hs, {}) && Distinct(live) && id in live && id in e.reqs && e.reqs[id].cache.Some?
    requires Room(e.reqs, e.arena, live)
    requires ys != [] && X.Held(e.arena, e.reqs[id]) + |ys| <= |X.Fed(d, e.reqs[id])|
    requires X.Held(e.arena, e.reqs[id]) + |ys| <= |e.reqs[id].prompt| + e.reqs[id].maxNew
    ensures var f := Feed(d, e.arena, e.reqs[id].cache.value, ys, e.fuel);
      f.error != Some(OutOfBlocks) && Room(e.reqs, f.arena, live) && |f.arena.caches| == |e.arena.caches|
  {
    hide ArenaOk, History, X.Fed, Feed, AllHeld, Unshared, X.NoStrays, CeilDiv, Promised;
    X.OkSize(d, e.arena, hs);
    var r := e.reqs[id];
    var c := r.cache.value;
    var bs := e.arena.store.pool.blockSize;
    var n := X.Held(e.arena, r) + |ys|;
    assert X.Owns(d, r, e.arena, hs);
    CeilDivMono(n, |r.prompt| + r.maxNew, bs);
    PromisedCovers(e.reqs, e.arena, live, id);
    var xs := X.Fed(d, r)[..X.Held(e.arena, r)];
    FeedRoom(d, e.arena, hs, c, xs, ys, e.fuel);
    FeedShape(d, e.arena, c, ys, e.fuel);
    ClaimKeepsRoom(e.reqs, e.arena, Feed(d, e.arena, c, ys, e.fuel).arena, live, id);
  }

  lemma PrefillRoom(d: Decoder, chunk: nat, e: Exec, live: seq<Id>, hs: seq<Hist>, id: Id)
    requires X.ExecOk(d, e.reqs, e.arena, live, hs, {}) && Distinct(live) && id in live && id in e.reqs && e.error.None?
    requires e.reqs[id].state == Prefilling && X.Ready(d, e.reqs[id], e.arena)
    requires Room(e.reqs, e.arena, live)
    ensures var e' := ExecPrefill(d, chunk, e, id);
      e'.error != Some(OutOfBlocks) && Room(e'.reqs, e'.arena, live)
  {
    hide X.ExecOk, X.Fed, Feed, X.Held, Room;
    var hs1 := X.CacheForOk(d, e, live, hs, id);
    CacheForRoom(d, e, live, hs, id);
    var e1 := CacheFor(e, id);
    var r := e1.reqs[id];
    var n := X.ChunkLength(chunk, r);
    if n > 0 {
      X.PromptSlice(d, r, n);
      FeedKeepsRoom(d, e1, live, hs1, id, Slice(PromptInputs(d, r), r.offset, r.offset + n));
    }
  }

  lemma DecodeRoom(d: Decoder, e: Exec, live: seq<Id>, hs: seq<Hist>, id: Id)
    requires X.ExecOk(d, e.reqs, e.arena, live, hs, {}) && Distinct(live) && id in live && id in e.reqs && e.error.None?
    requires e.reqs[id].state == Decoding && X.Ready(d, e.reqs[id], e.arena) && |e.reqs[id].gen| <= e.reqs[id].maxNew
    requires Room(e.reqs, e.arena, live)
    ensures var e' := ExecDecode(d, e, id);
      e'.error != Some(OutOfBlocks) && Room(e'.reqs, e'.arena, live)
  {
    hide X.ExecOk, X.Fed, Feed, X.Held, Room;
    var hs1 := X.CacheForOk(d, e, live, hs, id);
    CacheForRoom(d, e, live, hs, id);
    var e1 := CacheFor(e, id);
    var r := e1.reqs[id];
    X.SameFed(d, e.reqs[id], r);
    X.LastFed(d, r);
    FedLength(d, r);
    FeedKeepsRoom(d, e1, live, hs1, id, [d.embed(r.gen[|r.gen| - 1])]);
  }

  // ------------------------------------------------------------------------------- the batch

  lemma {:induction false} PrefillsRoom(d: Decoder, chunk: nat, e: Exec, live: seq<Id>, hs: seq<Hist>, ids: seq<Id>)
    requires X.ExecOk(d, e.reqs, e.arena, live, hs, {}) && Distinct(live) && e.error.None?
    requires X.BatchReady(d, e, live, ids, Prefilling) && Room(e.reqs, e.arena, live)
    ensures var e' := ExecPrefills(d, chunk, e, ids);
      e'.error != Some(OutOfBlocks) && Room(e'.reqs, e'.arena, live)
    decreases |ids|
  {
    hide X.ExecOk, X.OnlyTouched, X.Ready, X.Reported, X.Held, ExecPrefill, Room;
    if ids != [] {
      var id := ids[0];
      assert id in ids;
      X.ReadyMeans(d, e.reqs[id], e.arena);
      var hs1 := X.PrefillOne(d, chunk, e, live, hs, id);
      PrefillRoom(d, chunk, e, live, hs, id);
      var e1 := ExecPrefill(d, chunk, e, id);
      if e1.error.None? {
        X.ReadyStays(d, e, e1, live, ids, Prefilling);
        PrefillsRoom(d, chunk, e1, live, hs1, ids[1..]);
      } else {
        X.StuckPrefillsOk(d, chunk, e1, ids[1..]);
      }
    }
  }

  lemma {:induction false} DecodesRoom(d: Decoder, chunk: nat, e: Exec, live: seq<Id>, hs: seq<Hist>, ids: seq<Id>)
    requires X.ExecOk(d, e.reqs, e.arena, live, hs, {}) && Distinct(live) && e.error.None?
    requires X.BatchReady(d, e, live, ids, Decoding) && Room(e.reqs, e.arena, live)
    requires forall id :: id in ids && id in e.reqs ==> |e.reqs[id].gen| <= e.reqs[id].maxNew
    ensures var e' := ExecDecodes(d, e, ids);
      e'.error != Some(OutOfBlocks) && Room(e'.reqs, e'.arena, live)
    decreases |ids|
  {
    hide X.ExecOk, X.Ready, X.Reported, X.Held, ExecDecode, Room;
    if ids != [] {
      var id := ids[0];
      assert id in ids;
      X.ReadyMeans(d, e.reqs[id], e.arena);
      var hs1 := X.DecodeOne(d, chunk, e, live, hs, id);
      DecodeRoom(d, e, live, hs, id);
      var e1 := ExecDecode(d, e, id);
      if e1.error.None? {
        X.ReadyStays(d, e, e1, live, ids, Decoding);
        assert forall j :: j in ids[1..] ==> j in ids;
        DecodesRoom(d, chunk, e1, live, hs1, ids[1..]);
      } else {
        X.StuckDecodesOk(d, chunk, e1, ids[1..]);
      }
    }
  }

  /** A whole batch, run within the promises: no growth fails, and the promises are kept. */
  lemma ExecuteRoom(d: Decoder, cfg: Config, en: Engine, b: Batch, hs: seq<Hist>, fuel: nat)
    requires EngineInv(d, cfg, en, hs) && Distinct(b.prefill + b.decode)
    requires forall id :: id in b.prefill + b.decode ==>
      && id in en.sys.running && id in en.sys.reqs
      && en.sys.reqs[id].state == if id in b.prefill then Prefilling else Decoding
    requires Room(en.sys.reqs, en.sys.arena, en.sys.running)
    ensures var e := Execute(d, cfg, en.sys, b, fuel);
      e.error != Some(OutOfBlocks) && Room(e.reqs, e.arena, en.sys.running)
  {
    hide X.ExecOk, X.Ready, X.Reported, X.AllReported, X.Held, ExecPrefills, ExecDecodes, Room, Streams;
    var sys, live := en.sys, en.sys.running;
    var e := Exec(sys.reqs, sys.arena, Output(map[], map[]), fuel, None);
    forall id | id in b.prefill || id in b.decode
      ensures id in b.prefill + b.decode && sys.reqs[id].id == id && X.Ready(d, sys.reqs[id], sys.arena)
      ensures id in b.decode ==> |sys.reqs[id].gen| <= sys.reqs[id].maxNew
    {
      assert id in b.prefill + b.decode;
      ReadyFrom(d, cfg, sys.reqs[id], sys.arena);
      if sys.reqs[id].state == Decoding { StillShort(d, cfg, sys.reqs[id]); }
      X.PartsDistinct(b.prefill, b.decode);
    }
    X.PartsDistinct(b.prefill, b.decode);
    var hs1 := X.PrefillsOk(d, cfg.chunk, e, live, hs, b.prefill);
    PrefillsRoom(d, cfg.chunk, e, live, hs, b.prefill);
    var e1 := ExecPrefills(d, cfg.chunk, e, b.prefill);
    if e1.error.None? {
      X.DecodesReady(d, e, e1, live, b);
      DecodesRoom(d, cfg.chunk, e1, live, hs1, b.decode);
    } else {
      X.StuckDecodesOk(d, cfg.chunk, e1, b.decode);
    }
  }

  lemma StillShort(d: Decoder, cfg: Config, r: Request)
    requires RunOk(d, cfg.eos, r) && r.state == Decoding
    ensures |r.gen| <= r.maxNew
  {
    assert r.gen[..|r.gen|] == r.gen;
    assert !Stops(r.gen[..|r.gen|], r.maxNew, cfg.eos);
  }

  // ----------------------------------------------------------------------- after the batch

  lemma SetRoom(en: Engine, r: Request)
    requires Queues(en.sys) && r.id in en.sys.running && Room(en.sys.reqs, en.sys.arena, en.sys.running)
    requires var r0 := At(en.sys.reqs, r.id); r.prompt == r0.prompt && r.maxNew == r0.maxNew && r.cache == r0.cache
    ensures Room(Set(en, r).sys.reqs, en.sys.arena, en.sys.running)
  {
    hide AllHeld, Unshared, CeilDiv;
    PromisedSame(en.sys.reqs, en.sys.arena, Set(en, r).sys.reqs, en.sys.arena, en.sys.running);
  }

  lemma FinishRoom(d: Decoder, sys: Sys, hs: seq<Hist>, id: Id, bad: set<Id>)
    requires X.ExecOk(d, sys.reqs, sys.arena, sys.running, hs, bad) && id in sys.running && Distinct(sys.running) && id in sys.reqs
    requires Room(sys.reqs, sys.arena, sys.running)
    ensures var sys' := Finish(sys, id); Room(sys'.reqs, sys'.arena, sys'.running)
  {
    hide ArenaOk, Do, AllHeld, Unshared, CeilDiv, X.Owns, X.NoStrays;
    RemoveFacts(sys.running, id);
    var sys' := Finish(sys, id);
    X.OkSize(d, sys.arena, hs);
    if sys.reqs[id].cache.Some? {
      ReleaseRoom(d, sys.arena, hs, sys.reqs[id].cache.value);
      FinishShape(sys, id);
    }
    forall j | j in sys'.running ensures Owed(sys'.arena, At(sys'.reqs, j)) == Owed(sys.arena, At(sys.reqs, j)) {
      assert j in sys.running && j != id && j in sys.reqs;
      assert sys.reqs[j].cache.Some? ==> sys.reqs[j].cache != sys.reqs[id].cache;
    }
    PromisedSame(sys.reqs, sys.arena, sys'.reqs, sys'.arena, sys'.running);
    PromisedRemove(sys.reqs, sys.arena, sys.running, id);
  }

  lemma ReleaseRoom(d: Decoder, a: Arena, hs: seq<Hist>, c: nat)
    requires ArenaOk(d, a, hs) && c < |a.caches| && Unshared(AllHeld(a))
    ensures var a' := Call(a, Free(c)).arena;
      && |a'.store.pool.free| == |a.store.pool.free| + Claimed(a, c) && Unshared(AllHeld(a'))
      && |a'.caches| == |a.caches| && (forall j :: 0 <= j < |a.caches| && j != c ==> Claimed(a', j) == Claimed(a, j))
  {
    hide Inv, Do, AllHeld, Unshared;
    OkFacts(d, a, hs, c);
    FreeRoom(a, hs, c, NOTHING);
    FreeStep(a, hs, c, NOTHING);
  }

  ghost predicate RoomIn(en: Engine) {
    Room(en.sys.reqs, en.sys.arena, en.sys.running)
  }

  lemma RetireRoom(d: Decoder, cfg: Config, en: Engine, hs: seq<Hist>, pending: seq<Id>, out: Output, ok: bool, r: Request, events: seq<Event>)
    requires Mid(d, cfg, en, hs, pending, out, ok) && pending != [] && r.id == pending[0] && RoomIn(en)
    requires r.id in en.sys.reqs
    requires var r0 := en.sys.reqs[r.id];
      r.cache == r0.cache && r.prompt == r0.prompt && r.embeds == r0.embeds && r0.gen <= r.gen && r.maxNew == r0.maxNew
    ensures RoomIn(Retired(en, r, events))
  {
    hide X.ExecOk, Lives, Streams, Room, Finish, X.Reported, CacheLength;
    SetQueues(en, r);
    SetExec(d, en, hs, r, BadOf(pending, ok));
    SetRoom(en, r);
    FinishRoom(d, Set(en, r).sys, hs, r.id, BadOf(pending, ok));
  }

  lemma {:induction false} FailAllRoom(d: Decoder, cfg: Config, en: Engine, hs: seq<Hist>, pending: seq<Id>, out: Output)
    requires Mid(d, cfg, en, hs, pending, out, false) && RoomIn(en)
    ensures RoomIn(FailAll(en, pending))
    decreases |pending|
  {
    hide Mid, FailOne, RoomIn, Retired;
    if pending != [] {
      FailOneRetires(d, cfg, en, hs, pending, out);
      RetireRoom(d, cfg, en, hs, pending, out, false, en.sys.reqs[pending[0]], [DoneEvent(pending[0], true, false)]);
      var hs1 := FailOneMid(d, cfg, en, hs, pending, out);
      FailAllRoom(d, cfg, FailOne(en, pending[0]), hs1, pending[1..], out);
    }
  }

  lemma FailOneRetires(d: Decoder, cfg: Config, en: Engine, hs: seq<Hist>, pending: seq<Id>, out: Output)
    requires Mid(d, cfg, en, hs, pending, out, false) && pending != []
    ensures pending[0] in en.sys.reqs && en.sys.reqs[pending[0]].id == pending[0]
    ensures FailOne(en, pending[0]) == Retired(en, en.sys.reqs[pending[0]], [DoneEvent(pending[0], true, false)])
  {
    hide X.ExecOk, Streams, FailOne, Retired, Greedy;
    var id := pending[0];
    assert id in en.sys.running && RunOk(d, cfg.eos, en.sys.reqs[id]);
    FailOneIs(cfg, en, id);
  }

  lemma ApplyOneRoom(d: Decoder, cfg: Config, en: Engine, hs: seq<Hist>, pending: seq<Id>, out: Output)
    requires Mid(d, cfg, en, hs, pending, out, true) && pending != [] && RoomIn(en)
    ensures RoomIn(ApplyOne(cfg, en, out, pending[0]))
  {
    hide For, Closed, X.ExecOk, Streams, X.Fed, X.Held, Greedy, X.Reported, Tokens, Retired, ApplyOne, After, Stops, CacheLength, WellFormed, HitEos, Room;
    var id := pending[0];
    assert id in en.sys.running && id in en.sys.reqs;
    var r := en.sys.reqs[id];
    assert r.id == id && RunOk(d, cfg.eos, r);
    var r' := After(out, r);
    ApplyOneIs(d, cfg, en, out, id);
    AfterCoherent(d, cfg, en.sys.arena, out, r);
    if id in out.tokens && ShouldStop(r', cfg.eos) {
      RetireRoom(d, cfg, en, hs, pending, out, true, r', [TokenEvent(id, out.tokens[id]), DoneEvent(id, false, HitEos(r', cfg.eos))]);
    } else {
      SetRoom(en, r');
    }
  }

  lemma {:induction false} ApplyAllRoom(d: Decoder, cfg: Config, en: Engine, hs: seq<Hist>, pending: seq<Id>, out: Output)
    requires Mid(d, cfg, en, hs, pending, out, true) && RoomIn(en)
    ensures RoomIn(ApplyAll(cfg, en, out, pending))
    decreases |pending|
  {
    hide Mid, ApplyOne, RoomIn;
    if pending != [] {
      ApplyOneRoom(d, cfg, en, hs, pending, out);
      var hs1 := ApplyOneMid(d, cfg, en, hs, pending, out);
      ApplyAllRoom(d, cfg, ApplyOne(cfg, en, out, pending[0]), hs1, pending[1..], out);
    }
  }
}
