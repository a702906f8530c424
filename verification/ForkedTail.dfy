/** A run of the arena in which `update` is not all or nothing: copy-on-write finds no free block after
    the length has advanced. */
module ForkedTail {
  import opened Common
  import opened Tensors
  import opened Paging
  import opened WriteCosts
  import opened Arenas
  import opened ArenaProofs
  import opened ArenaRuns
  import opened Owners
  import P = Pools

  /** A sequence of one token in a block of two, the pool's only one. */
  function Table1(): Table { Table([0], 1) }

  /** The arena after the first three calls, one sequence forked. */
  function Forked(x: KV, zero: KV): Arena {
    Arena(Store(P.Pool(2, [2], []), [[[x, zero]]]), [Cache(Table1(), 1, 0), Cache(Table1(), 0, 0)], [], 0)
  }

  function Alone(x: KV, zero: KV): Arena {
    Arena(Store(P.Pool(2, [1], []), [[[x, zero]]]), [Cache(Table1(), 1, 0)], [], 0)
  }

  function Fresh(zero: KV): Arena {
    Arena(Store(P.Pool(2, [0], [0]), [[[zero, zero]]]), [Cache(EMPTY_TABLE, 0, 0)], [], 0)
  }

  lemma Started(zero: KV)
    ensures Arenas.Init(1, 1, 2, 0, zero) == Arena(Store(P.Pool(2, [0], [0]), [[[zero, zero]]]), [], [], 0)
  {
    var row := seq(2, s => zero);
    assert row == [zero, zero];
    var layer := seq(1, b => row);
    assert layer == [[zero, zero]];
    assert seq(1, l => layer) == [[[zero, zero]]];
    assert P.Init(1, 2) == P.Pool(2, [0], [0]);
  }

  lemma TakesTheBlock()
    ensures Append(P.Pool(2, [0], [0]), EMPTY_TABLE, 1) == TableOut(P.Pool(2, [1], []), Table1(), Ok([0]))
  {
    var p := P.Pool(2, [0], [0]);
    assert P.Popped(p.free, 1) == [0];
    assert P.SetCounts(p.refcount, [0], 1) == [1];
    assert P.Allocate(p, 1) == P.Outcome(P.Pool(2, [1], []), Ok([0]));
  }

  lemma Reads(x: KV, z: KV)
    ensures Flat([[x, z]], [0]) == [x, z]
  {
    assert Rows([[x, z]], [0]) == [[x, z]];
    assert Concat([[x, z]]) == [x, z] + Concat([]);
  }

  lemma FirstWrite(x: KV, zero: KV)
    ensures Do(Fresh(zero), Update(0, 0, [x])) == Done(Alone(x, zero), Ok([x]))
  {
    hide Append;
    TakesTheBlock();
    Reads(x, zero);
    var s1, c1 := Store(P.Pool(2, [1], []), [[[zero, zero]]]), Cache(Table1(), 1, 0);
    assert UnshareRange(s1, c1, 0, 0) == Out(s1, c1, Ok(()));
    assert Begin(Fresh(zero).store, Fresh(zero).caches[0], 1) == Out(s1, c1, Ok(()));
    assert [zero, zero][0 := x] == [x, zero] && [[zero, zero]][0 := [x, zero]] == [[x, zero]];
    assert Put([[zero, zero]], [0], 2, 0, x) == [[x, zero]];
    assert [x][1..] == [];
    assert Write([[zero, zero]], [0], 2, 0, [x]) == [[x, zero]];
    assert [x, zero][..1] == [x] && Gather([[x, zero]], Table1()) == [x];
    assert s1.kv[0 := [[x, zero]]] == [[[x, zero]]];
    assert Paging.Update(Fresh(zero).store, Fresh(zero).caches[0], 0, [x]) == Out(Alone(x, zero).store, c1, Ok([x]));
    assert Fresh(zero).caches[0 := c1] == [c1];
  }

  lemma Forks(x: KV, zero: KV)
    ensures Do(Alone(x, zero), Fork(0)) == Done(Forked(x, zero), Ok([]))
  {
    assert P.AddCounts([1], [0]) == [2];
    assert P.Incref(P.Pool(2, [1], []), [0]) == P.Outcome(P.Pool(2, [2], []), Ok(()));
  }

  /** The block is there already, so the length advances; then there is none to split it into. */
  lemma LastCall(x: KV, y: KV, zero: KV)
    ensures var c := Cache(Table([0], 2), 1, 0);
      Do(Forked(x, zero), Update(1, 0, [y])) == Done(Forked(x, zero).(caches := Forked(x, zero).caches[1 := c]), Err(OutOfBlocks))
      && Gather(Forked(x, zero).store.kv[0], c.table) == [x, zero]
  {
    var s := Forked(x, zero).store;
    Reads(x, zero);
    assert Append(s.pool, Table1(), 1) == TableOut(s.pool, Table([0], 2), Ok([]));
    assert P.CopyOnWrite(s.pool, 0) == P.Outcome(s.pool, Err(OutOfBlocks));
    assert UnshareRange(s, Cache(Table([0], 2), 1, 0), 0, 0) == Out(s, Cache(Table([0], 2), 1, 0), Err(OutOfBlocks));
  }

  /** The owner of the first sequence once it has its token, and of its fork. */
  function Parent(x: KV): Owner { Owner(0, 1, 1, [[x]]) }
  function Child(x: KV): Owner { Owner(0, 1, 0, [[x]]) }

  lemma ForkStep(x: KV, zero: KV, kvOf: Oracle)
    ensures Reaches(Alone(x, zero), [Parent(x)], [Fork(0)], Forked(x, zero), [Parent(x), Child(x)], kvOf)
  {
    Forks(x, zero);
    hide Do;
    ReachesNow(Forked(x, zero), [Parent(x), Child(x)], kvOf);
    ReachesBy(Alone(x, zero), [Parent(x)], Fork(0), Forked(x, zero), [Parent(x), Child(x)], [], Forked(x, zero), [Parent(x), Child(x)], kvOf);
    assert [Fork(0)] + [] == [Fork(0)];
  }

  lemma WriteStep(x: KV, zero: KV, kvOf: Oracle)
    ensures Reaches(Fresh(zero), [Owner(0, 0, 0, [[]])], [Update(0, 0, [x]), Fork(0)], Forked(x, zero), [Parent(x), Child(x)], kvOf)
  {
    FirstWrite(x, zero);
    ForkStep(x, zero, kvOf);
    hide Do, Reaches;
    var o := Owner(0, 0, 0, [[]]);
    FirstCost(zero);
    assert o.hist[0] + [x] == [x] && o.hist[0 := [x]] == [[x]];
    ReachesBy(Fresh(zero), [o], Update(0, 0, [x]), Alone(x, zero), [Parent(x)], [Fork(0)], Forked(x, zero), [Parent(x), Child(x)], kvOf);
    assert [Update(0, 0, [x])] + [Fork(0)] == [Update(0, 0, [x]), Fork(0)];
  }

  lemma FirstCost(zero: KV)
    ensures Lacking(Fresh(zero), [Owner(0, 0, 0, [[]])], 0, 1) == 1
    ensures Cost(Fresh(zero), [Owner(0, 0, 0, [[]])], 0, 0, 1) == 1
  {
    assert RangeBlocks(EMPTY_TABLE, 2, 1) == [];
    NoSplits(AllHeld(Fresh(zero)), []);
  }

  lemma NewStep(x: KV, zero: KV, kvOf: Oracle)
    ensures Reaches(Arenas.Init(1, 1, 2, 0, zero), [], [New(0), Update(0, 0, [x]), Fork(0)], Forked(x, zero), [Parent(x), Child(x)], kvOf)
  {
    Started(zero);
    WriteStep(x, zero, kvOf);
    hide Arenas.Init, Reaches;
    assert NoHist(1) == [[]];
    var rest := [Update(0, 0, [x]), Fork(0)];
    ReachesBy(Arenas.Init(1, 1, 2, 0, zero), [], New(0), Fresh(zero), [Owner(0, 0, 0, [[]])], rest, Forked(x, zero), [Parent(x), Child(x)], kvOf);
    assert [New(0)] + rest == [New(0), Update(0, 0, [x]), Fork(0)];
  }

  /** The fork lacks no block for its second token, but the one it has must be copied. */
  lemma SecondCost(x: KV, zero: KV)
    ensures var a, os := Forked(x, zero), [Parent(x), Child(x)];
      Lacking(a, os, 1, 1) == 0 && Cost(a, os, 1, 0, 1) == 1
  {
    var a, t := Forked(x, zero), Table1();
    assert RangeBlocks(t, 2, 1) == [0];
    var held := AllHeld(a);
    assert a.caches[..2][..1] == [a.caches[0]] && a.caches[..1][..0] == [];
    assert HeldBy(a.caches) == HeldBy(a.caches[..1]) + Bag(a.caches[1]);
    assert HeldBy(a.caches[..1]) == HeldBy(a.caches[..1][..0]) + Bag(a.caches[0]);
    assert held[0] == 2;
    NoSplits(held, []);
    assert [0][..0] == [];
    assert Splits(held, [0]) == 1;
  }

  /** A run its callers may make, in which the last call runs out of blocks; yet afterwards the fork's
      table counts a second token that no layer was ever given, and reads back an unwritten slot. */
  lemma LengthRunsAhead(x: KV, y: KV, zero: KV, kvOf: Oracle)
    ensures var a, os, op := Forked(x, zero), [Parent(x), Child(x)], Update(1, 0, [y]);
      && Reaches(Arenas.Init(1, 1, 2, 0, zero), [], [New(0), Update(0, 0, [x]), Fork(0)], a, os, kvOf)
      && Enabled(1, os, op, kvOf) && a.store.pool.blockSize > 0 && |a.store.kv| == 1
      && var d := Call(a, op);
      && d.result == Err(OutOfBlocks) && Abstract(a, os, op, kvOf) == [Parent(x), Owner(0, 2, 1, [[x]])]
      && d.arena.caches[1].table.numTokens == 2
      && Gather(d.arena.store.kv[0], d.arena.caches[1].table) == [x, zero]
  {
    NewStep(x, zero, kvOf);
    LastCall(x, y, zero);
    SecondCost(x, zero);
    hide Do, Reaches, Arenas.Init, Gather, Lacking, Cost;
  }
}
