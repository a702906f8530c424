/** Every tenant of one arena as a single state machine: any number of sequences, forks, frees and
    the prefix cache, interleaved layer by layer, over one pool of physical blocks.

    The abstract side is one private history per sequence (`seq<Hist>`), which is what a private
    contiguous cache holds. */
module Arenas {
  import opened Common
  import opened Tensors
  import opened Paging
  import opened Prefixes
  import P = Pools

  /** Sequences are named by their position in `caches`; a freed one stays, with an empty table. */
  datatype Arena = Arena(store: Store, caches: seq<Cache>, entries: seq<Entry>, maxBlocks: nat)

  datatype Op =
    | New(firstLayer: nat)
    | Ensure(id: nat, n: nat)
    | Update(id: nat, layer: nat, xs: seq<KV>)
    | Fork(id: nat)
    | Free(id: nat)
    | Register(id: nat, tokens: seq<Token>)
    | Adopt(tokens: seq<Token>, firstLayer: nat)
    | Clear

  datatype Done = Done(arena: Arena, result: Result<seq<KV>>)

  function Init(layers: nat, numBlocks: nat, blockSize: nat, maxBlocks: nat, zero: KV): Arena {
    var row := seq(blockSize, s => zero);
    var layer := seq(numBlocks, b => row);
    Arena(Store(P.Init(numBlocks, blockSize), seq(layers, l => layer)), [], [], maxBlocks)
  }

  function Seat(a: Arena, id: nat, s: Store, c: Cache): Arena
    requires id < |a.caches|
  {
    a.(store := s, caches := a.caches[id := c])
  }

  function Map<T>(r: Result<T>): Result<seq<KV>> {
    match r
    case Ok(_) => Ok([])
    case Err(e) => Err(e)
  }

  /** What each call does to the shared state, and what it returns. */
  function Do(a: Arena, op: Op): Done
    requires a.store.pool.blockSize > 0
    requires (op.Ensure? || op.Update? || op.Fork? || op.Free? || op.Register?) ==> op.id < |a.caches|
    requires op.Update? ==> a.caches[op.id].firstLayer <= op.layer
  {
    var s := a.store;
    match op
    case New(firstLayer) => Done(a.(caches := a.caches + [Cache(EMPTY_TABLE, 0, firstLayer)]), Ok([]))
    case Ensure(id, n) =>
      var o := EnsureCapacity(s.pool, a.caches[id].table, n);
      Done(Seat(a, id, s.(pool := o.pool), a.caches[id].(table := o.table)), Map(o.result))
    case Update(id, layer, xs) =>
      var o := Paging.Update(s, a.caches[id], layer, xs);
      Done(Seat(a, id, o.store, o.cache), o.result)
    case Fork(id) =>
      var o := ForkTable(s.pool, a.caches[id].table);
      var a1 := a.(store := s.(pool := o.pool));
      (match o.result
       case Ok(t) => Done(a1.(caches := a.caches + [Cache(t, 0, a.caches[id].firstLayer)]), Ok([]))
       case Err(e) => Done(a1, Err(e)))
    case Free(id) =>
      var o := FreeTable(s.pool, a.caches[id].table);
      Done(Seat(a, id, s.(pool := o.pool), a.caches[id].(table := o.table)), Map(o.result))
    case Register(id, tokens) =>
      var o := Prefixes.Register(s.pool, a.entries, a.maxBlocks, tokens, a.caches[id].table.blocks);
      Done(a.(store := s.(pool := o.pool), entries := o.entries), Map(o.result))
    case Adopt(tokens, firstLayer) =>
      var o := Lookup(s.pool, a.entries, tokens);
      var a1 := a.(store := s.(pool := o.pool), entries := o.entries);
      (match o.result
       case Ok((blocks, n)) => Done(a1.(caches := a.caches + [Cache(Table(blocks, n), 0, firstLayer)]), Ok([]))
       case Err(e) => Done(a1, Err(e)))
    case Clear =>
      var o := Prefixes.Clear(s.pool, a.entries);
      Done(a.(store := s.(pool := o.pool), entries := o.entries), Map(o.result))
  }

  /** `Do` for a handle that may be out of range, which is an index error. */
  function Call(a: Arena, op: Op): Done {
    if a.store.pool.blockSize == 0 then Done(a, Err(ValueError))
    else if (op.Ensure? || op.Update? || op.Fork? || op.Free? || op.Register?) && op.id >= |a.caches| then
      Done(a, Err(IndexError))
    else if op.Update? && op.layer < a.caches[op.id].firstLayer then Done(a, Err(IndexError))
    else Do(a, op)
  }

  // ------------------------------------------------------------------- who refers to which block

  ghost function Bag(c: Cache): multiset<Block> {
    multiset(c.table.blocks)
  }

  ghost function HeldBy(caches: seq<Cache>): multiset<Block> {
    if caches == [] then multiset{} else HeldBy(caches[..|caches| - 1]) + Bag(caches[|caches| - 1])
  }

  /** Every reference there is: one per table slot and one per prefix-cache entry. */
  ghost function AllHeld(a: Arena): multiset<Block> {
    HeldBy(a.caches) + multiset(Blocks(a.entries))
  }

  ghost function Others(a: Arena, id: nat): multiset<Block>
    requires id < |a.caches|
  {
    AllHeld(a) - Bag(a.caches[id])
  }

  lemma {:induction false} HeldUpdate(caches: seq<Cache>, i: nat, c: Cache)
    requires i < |caches|
    ensures Bag(caches[i]) <= HeldBy(caches)
    ensures HeldBy(caches[i := c]) == HeldBy(caches) - Bag(caches[i]) + Bag(c)
  {
    hide Bag;
    var n := |caches| - 1;
    if i < n {
      HeldUpdate(caches[..n], i, c);
      assert caches[i := c][..n] == caches[..n][i := c];
    } else {
      assert caches[i := c][..n] == caches[..n];
    }
  }

  lemma {:induction false} HeldTwo(caches: seq<Cache>, i: nat, j: nat)
    requires i < |caches| && j < |caches| && i != j
    ensures Bag(caches[i]) + Bag(caches[j]) <= HeldBy(caches)
  {
    var empty := caches[i].(table := EMPTY_TABLE);
    HeldUpdate(caches, i, empty);
    HeldUpdate(caches[i := empty], j, empty);
  }

  lemma HeldPush(caches: seq<Cache>, c: Cache)
    ensures HeldBy(caches + [c]) == HeldBy(caches) + Bag(c)
  {
    assert (caches + [c])[..|caches|] == caches;
  }

  lemma OthersFacts(a: Arena, id: nat)
    requires id < |a.caches|
    ensures Bag(a.caches[id]) + Others(a, id) == AllHeld(a)
    ensures forall j :: 0 <= j < |a.caches| && j != id ==> Bag(a.caches[j]) <= Others(a, id)
    ensures multiset(Blocks(a.entries)) <= Others(a, id)
  {
    hide Bag;
    HeldUpdate(a.caches, id, a.caches[id]);
    forall j | 0 <= j < |a.caches| && j != id ensures Bag(a.caches[j]) <= Others(a, id) {
      HeldTwo(a.caches, id, j);
    }
  }

  lemma OthersAfter(a: Arena, id: nat, s: Store, c: Cache)
    requires id < |a.caches|
    ensures AllHeld(Seat(a, id, s, c)) == Bag(c) + Others(a, id)
    ensures Others(Seat(a, id, s, c), id) == Others(a, id)
  {
    hide Bag;
    HeldUpdate(a.caches, id, c);
  }
}
