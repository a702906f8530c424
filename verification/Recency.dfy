/** The prefix cache drops the least recently used blocks: after any calls, what is cached stands in the
    order of its last use, and was used after everything that is not. */
module Recency {
  import opened Common
  import opened Tensors
  import opened Paging
  import opened Prefixes
  import opened PrefixProofs
  import opened Arenas
  import opened Owners
  import opened ArenaRuns
  import opened PrefixClosure
  import P = Pools

  // ------------------------------------------------------------------------- the order of a lookup

  /** The entries whose key is not among these, in the order they have. */
  ghost function Unmatched(entries: seq<Entry>, hashes: seq<Hash>): seq<Entry> {
    if entries == [] then []
    else
      var n := |entries| - 1;
      Unmatched(entries[..n], hashes) + if entries[n].hash in hashes then [] else [entries[n]]
  }

  lemma {:induction false} UnmatchedJoin(a: seq<Entry>, b: seq<Entry>, hashes: seq<Hash>)
    ensures Unmatched(a + b, hashes) == Unmatched(a, hashes) + Unmatched(b, hashes)
    decreases |b|
  {
    if b == [] {
      assert a + b == a;
    } else {
      var n, all := |b| - 1, a + b;
      assert all[..|all| - 1] == a + b[..n] && all[|all| - 1] == b[n];
      UnmatchedJoin(a, b[..n], hashes);
    }
  }

  lemma {:induction false} UnmatchedOther(entries: seq<Entry>, h: Hash, hashes: seq<Hash>)
    requires forall i :: 0 <= i < |entries| ==> entries[i].hash != h
    ensures Unmatched(entries, [h] + hashes) == Unmatched(entries, hashes)
  {
    if entries != [] {
      UnmatchedOther(entries[..|entries| - 1], h, hashes);
    }
  }

  lemma UnmatchedOne(e: Entry, hashes: seq<Hash>)
    ensures Unmatched([e], hashes) == if e.hash in hashes then [] else [e]
  {
    assert [e][..0] == [];
  }

  lemma MovedUnmatched(entries: seq<Entry>, h: Hash, hashes: seq<Hash>)
    requires Distinct(Keys(entries)) && Contains(entries, h) && h !in hashes
    ensures Unmatched(MoveToEnd(entries, h), hashes) == Unmatched(entries, [h] + hashes) + [entries[Find(entries, h)]]
  {
    hide Unmatched;
    var i := Find(entries, h);
    var front, e, back := entries[..i], entries[i], entries[i + 1..];
    assert entries == front + [e] + back;
    UnmatchedJoin(front + back, [e], hashes);
    UnmatchedJoin(front, back, hashes);
    UnmatchedJoin(front + [e], back, [h] + hashes);
    UnmatchedJoin(front, [e], [h] + hashes);
    UnmatchedOne(e, hashes);
    UnmatchedOne(e, [h] + hashes);
    forall j | 0 <= j < |entries| && j != i ensures entries[j].hash != h {
      assert Keys(entries)[j] != Keys(entries)[i];
    }
    UnmatchedOther(front, h, hashes);
    UnmatchedOther(back, h, hashes);
  }

  /** After a lookup come first the entries it did not match, in their old order, and then those it did, in
      the order of the prompt. */
  lemma {:induction false} MatchOrder(entries: seq<Entry>, hashes: seq<Hash>)
    requires Distinct(Keys(entries)) && Distinct(hashes)
    ensures var m := Match(entries, hashes);
      |m.blocks| <= |hashes|
      && m.entries == Unmatched(entries, hashes[..|m.blocks|]) + Window(hashes, m.blocks, 0, |m.blocks|)
    decreases |hashes|
  {
    hide MoveToEnd, Find, Contains;
    if hashes == [] || !Contains(entries, hashes[0]) {
      NoneUnmatched(entries);
      assert hashes[..0] == [];
    } else {
      var h, rest := hashes[0], hashes[1..];
      MoveToEndDistinct(entries, h);
      MatchOrder(MoveToEnd(entries, h), rest);
      var r := Match(MoveToEnd(entries, h), rest);
      MatchFirst(entries, hashes, r);
    }
  }

  lemma MatchFirst(entries: seq<Entry>, hashes: seq<Hash>, r: Matched)
    requires Distinct(Keys(entries)) && Distinct(hashes) && hashes != [] && Contains(entries, hashes[0])
    requires |r.blocks| < |hashes|
    requires r.entries == Unmatched(MoveToEnd(entries, hashes[0]), hashes[1..][..|r.blocks|]) + Window(hashes[1..], r.blocks, 0, |r.blocks|)
    ensures var blocks := [entries[Find(entries, hashes[0])].block] + r.blocks;
      r.entries == Unmatched(entries, hashes[..|blocks|]) + Window(hashes, blocks, 0, |blocks|)
  {
    hide MoveToEnd, Unmatched, Window;
    var h, rest, n := hashes[0], hashes[1..], |r.blocks|;
    var e := entries[Find(entries, h)];
    ContainsMember(entries, h);
    assert h !in rest[..n];
    MovedUnmatched(entries, h, rest[..n]);
    assert hashes[..n + 1] == [h] + rest[..n];
    FrontWindow(hashes, e.block, r.blocks);
    JoinRight(Unmatched(entries, hashes[..n + 1]), e, Window(rest, r.blocks, 0, n));
  }

  lemma JoinRight(a: seq<Entry>, e: Entry, b: seq<Entry>)
    ensures (a + [e]) + b == a + ([e] + b)
  {
  }

  lemma FrontWindow(hashes: seq<Hash>, b: Block, blocks: seq<Block>)
    requires |blocks| < |hashes|
    ensures Window(hashes, [b] + blocks, 0, |blocks| + 1) == [Entry(hashes[0], b)] + Window(hashes[1..], blocks, 0, |blocks|)
  {
  }

  lemma {:induction false} NoneUnmatched(entries: seq<Entry>)
    ensures Unmatched(entries, []) == entries
  {
    if entries != [] {
      NoneUnmatched(entries[..|entries| - 1]);
    }
  }

  // ------------------------------------------------------------------------------ the order of use

  /** When a block was last used: the last position in the log of uses, or -1. */
  ghost function LastUse(uses: seq<Hash>, h: Hash): (i: int)
    ensures -1 <= i < |uses|
    ensures i >= 0 ==> uses[i] == h
    ensures forall j :: i < j < |uses| ==> uses[j] != h
  {
    if uses == [] then -1 else if uses[|uses| - 1] == h then |uses| - 1 else LastUse(uses[..|uses| - 1], h)
  }

  lemma UsedNow(uses: seq<Hash>, h: Hash)
    ensures LastUse(uses + [h], h) == |uses|
    ensures forall g :: g != h ==> LastUse(uses + [h], g) == LastUse(uses, g)
  {
    assert (uses + [h])[..|uses|] == uses;
  }

  /** What is cached stands in the order of its last use, all after everything that is not cached. */
  ghost predicate Recent(entries: seq<Entry>, uses: seq<Hash>) {
    && (forall i, j :: 0 <= i < j < |entries| ==> LastUse(uses, entries[i].hash) < LastUse(uses, entries[j].hash))
    && (forall h, i :: !Contains(entries, h) && 0 <= i < |entries| ==> LastUse(uses, h) < LastUse(uses, entries[i].hash))
  }

  lemma RecentDistinct(entries: seq<Entry>, uses: seq<Hash>)
    requires Recent(entries, uses)
    ensures Distinct(Keys(entries))
  {
    hide LastUse, Contains;
  }

  lemma NoSuchKey(entries: seq<Entry>, h: Hash)
    requires !Contains(entries, h)
    ensures forall i :: 0 <= i < |entries| ==> entries[i].hash != h
  {
  }

  lemma RecentPush(entries: seq<Entry>, e: Entry, uses: seq<Hash>)
    requires Recent(entries, uses) && !Contains(entries, e.hash)
    ensures Recent(entries + [e], uses + [e.hash])
  {
    hide LastUse, Find;
    var all, uses' := entries + [e], uses + [e.hash];
    UsedNow(uses, e.hash);
    NoSuchKey(entries, e.hash);
    forall h, i | !Contains(all, h) && 0 <= i < |all| ensures LastUse(uses', h) < LastUse(uses', all[i].hash) {
      StillThere(entries, e, h);
    }
  }

  lemma RotatedAt(s: seq<Entry>, i: nat)
    requires i < |s|
    ensures var moved := s[..i] + s[i + 1..] + [s[i]];
      && |moved| == |s| && moved[|s| - 1] == s[i]
      && forall j :: 0 <= j < |s| - 1 ==> moved[j] == s[if j < i then j else j + 1]
  {
  }

  /** Every other entry keeps its place among the others, and the one moved is last. */
  lemma MovedAt(entries: seq<Entry>, h: Hash)
    requires Contains(entries, h) && Distinct(Keys(entries))
    ensures var i, moved := Find(entries, h), MoveToEnd(entries, h);
      && |moved| == |entries| && moved[|moved| - 1].hash == h
      && (forall j :: 0 <= j < |moved| - 1 ==> moved[j] == entries[if j < i then j else j + 1])
      && (forall j :: 0 <= j < |moved| - 1 ==> moved[j].hash != h)
  {
    var i, moved := Find(entries, h), MoveToEnd(entries, h);
    assert moved == entries[..i] + entries[i + 1..] + [entries[i]];
    RotatedAt(entries, i);
    hide MoveToEnd;
    forall j | 0 <= j < |entries| && j != i ensures entries[j].hash != h {
      assert Keys(entries)[j] != Keys(entries)[i];
    }
  }

  /** Leaving out one entry, wherever it stands, and using it now. */
  lemma RecentMoved(entries: seq<Entry>, h: Hash, uses: seq<Hash>)
    requires Recent(entries, uses) && Contains(entries, h)
    ensures Recent(MoveToEnd(entries, h), uses + [h])
  {
    hide LastUse, Find, MoveToEnd, Contains;
    var i, moved, uses' := Find(entries, h), MoveToEnd(entries, h), uses + [h];
    UsedNow(uses, h);
    RecentDistinct(entries, uses);
    MovedAt(entries, h);
    forall j, k | 0 <= j < k < |moved| ensures LastUse(uses', moved[j].hash) < LastUse(uses', moved[k].hash) {
      if k < |moved| - 1 {
        var j', k' := if j < i then j else j + 1, if k < i then k else k + 1;
        assert moved[j] == entries[j'] && moved[k] == entries[k'] && j' < k';
      }
    }
    forall g, j | !Contains(moved, g) && 0 <= j < |moved| ensures LastUse(uses', g) < LastUse(uses', moved[j].hash) {
      MovedContains(entries, h, g);
      assert g != h;
      if j < |moved| - 1 {
        var j' := if j < i then j else j + 1;
        assert moved[j] == entries[j'];
      }
    }
  }

  lemma MovedContains(entries: seq<Entry>, h: Hash, g: Hash)
    ensures Contains(MoveToEnd(entries, h), g) <==> Contains(entries, g)
  {
    var moved := MoveToEnd(entries, h);
    MovedMembers(entries, h);
    ContainsMember(entries, g);
    ContainsMember(moved, g);
  }

  lemma MovedMembers(entries: seq<Entry>, h: Hash)
    ensures forall e :: e in MoveToEnd(entries, h) <==> e in entries
  {
    var i := Find(entries, h);
    if i < |entries| {
      assert entries == entries[..i] + [entries[i]] + entries[i + 1..];
    }
  }

  /** Dropping the oldest entries. */
  lemma RecentSuffix(entries: seq<Entry>, k: nat, uses: seq<Hash>)
    requires k <= |entries| && Recent(entries, uses)
    ensures Recent(entries[k..], uses)
  {
    hide LastUse, Find;
    var rest := entries[k..];
    forall h, i | !Contains(rest, h) && 0 <= i < |rest| ensures LastUse(uses, h) < LastUse(uses, rest[i].hash) {
      if Contains(entries, h) {
        NoSuchKey(rest, h);
        assert forall x :: k <= x < |entries| ==> entries[x] == rest[x - k];
        ContainsMember(entries, h);
        assert Find(entries, h) < k;
      }
    }
  }

  lemma {:induction false} EvictDropsFront(p: P.Pool, entries: seq<Entry>, maxBlocks: nat) returns (k: nat)
    ensures k <= |entries| && Evict(p, entries, maxBlocks).entries == entries[k..]
    decreases |entries|
  {
    k := 0;
    if |entries| >= maxBlocks && entries != [] {
      k := 1;
      var o := P.Free(p, [entries[0].block]);
      if o.result.Ok? {
        var k1 := EvictDropsFront(o.pool, entries[1..], maxBlocks);
        k := k1 + 1;
      }
    }
  }

  lemma EvictAbsent(p: P.Pool, entries: seq<Entry>, maxBlocks: nat, uses: seq<Hash>, h: Hash)
    requires Recent(entries, uses) && !Contains(entries, h)
    ensures Recent(Evict(p, entries, maxBlocks).entries, uses) && !Contains(Evict(p, entries, maxBlocks).entries, h)
  {
    hide Recent, Contains, Evict;
    var k := EvictDropsFront(p, entries, maxBlocks);
    RecentSuffix(entries, k, uses);
    StillAbsent(entries, entries[k..], h);
  }

  lemma MatchHits(entries: seq<Entry>, hashes: seq<Hash>)
    requires Distinct(Keys(entries))
    ensures |Match(entries, hashes).blocks| == LeadingHits(entries, hashes)
  {
    hide Match, Contains, Find;
    MatchLongest(entries, hashes);
    var m := Match(entries, hashes);
    forall i | 0 <= i < |m.blocks| ensures Contains(entries, hashes[i]) {
      ContainsMember(entries, hashes[i]);
      assert Entry(hashes[i], m.blocks[i]).hash == hashes[i];
    }
    HitsUnique(entries, hashes, |m.blocks|);
  }

  lemma {:induction false} MatchRecent(entries: seq<Entry>, hashes: seq<Hash>, uses: seq<Hash>)
    requires Recent(entries, uses)
    ensures var m := Match(entries, hashes);
      |m.blocks| == LeadingHits(entries, hashes) && Recent(m.entries, uses + hashes[..|m.blocks|])
    decreases |hashes|
  {
    hide Recent, MoveToEnd, Find, Contains;
    RecentDistinct(entries, uses);
    MatchHits(entries, hashes);
    var n := |Match(entries, hashes).blocks|;
    if hashes != [] && Contains(entries, hashes[0]) {
      var h, rest := hashes[0], hashes[1..];
      RecentMoved(entries, h, uses);
      MatchRecent(MoveToEnd(entries, h), rest, uses + [h]);
      assert hashes[..n] == [h] + rest[..n - 1];
      assert uses + [h] + rest[..n - 1] == uses + hashes[..n];
    } else {
      assert uses + hashes[..0] == uses;
    }
  }

  /** The hashes a registration adds, in order, from position `i` of the prompt on. */
  ghost function Added(p: P.Pool, entries: seq<Entry>, maxBlocks: nat, hashes: seq<Hash>, blocks: seq<Block>, i: nat): seq<Hash>
    decreases |hashes| - i
  {
    if i >= |hashes| then []
    else if i >= |blocks| || Contains(entries, hashes[i]) then Added(p, entries, maxBlocks, hashes, blocks, i + 1)
    else
      var e := Evict(p, entries, maxBlocks);
      var o := P.Incref(e.pool, [blocks[i]]);
      if e.result.Err? || |e.entries| >= maxBlocks || o.result.Err? then []
      else [hashes[i]] + Added(o.pool, e.entries + [Entry(hashes[i], blocks[i])], maxBlocks, hashes, blocks, i + 1)
  }

  lemma {:induction false} RegisterRecent(p: P.Pool, entries: seq<Entry>, maxBlocks: nat, hashes: seq<Hash>, blocks: seq<Block>, i: nat, uses: seq<Hash>)
    requires Recent(entries, uses)
    ensures Recent(RegisterFrom(p, entries, maxBlocks, hashes, blocks, i).entries, uses + Added(p, entries, maxBlocks, hashes, blocks, i))
    decreases |hashes| - i
  {
    hide Recent, Contains, Evict, P.Incref;
    var now := Added(p, entries, maxBlocks, hashes, blocks, i);
    if i >= |hashes| {
      assert uses + [] == uses;
    } else if i >= |blocks| || Contains(entries, hashes[i]) {
      RegisterRecent(p, entries, maxBlocks, hashes, blocks, i + 1, uses);
    } else {
      EvictAbsent(p, entries, maxBlocks, uses, hashes[i]);
      var e := Evict(p, entries, maxBlocks);
      var o := P.Incref(e.pool, [blocks[i]]);
      assert uses + [] == uses;
      if !(e.result.Err? || |e.entries| >= maxBlocks || o.result.Err?) {
        var one := Entry(hashes[i], blocks[i]);
        RecentPush(e.entries, one, uses);
        RegisterRecent(o.pool, e.entries + [one], maxBlocks, hashes, blocks, i + 1, uses + [hashes[i]]);
        assert uses + [hashes[i]] + now[1..] == uses + now;
      }
    }
  }

  // ---------------------------------------------------------------------------------------- runs

  /** And it reports how many those are. */
  lemma {:induction false} RegisterCounts(p: P.Pool, entries: seq<Entry>, maxBlocks: nat, hashes: seq<Hash>, blocks: seq<Block>, i: nat)
    requires RegisterFrom(p, entries, maxBlocks, hashes, blocks, i).result.Ok?
    ensures RegisterFrom(p, entries, maxBlocks, hashes, blocks, i).result.value == |Added(p, entries, maxBlocks, hashes, blocks, i)|
    decreases |hashes| - i
  {
    hide Contains, Evict, P.Incref;
    if i < |hashes| {
      if i >= |blocks| || Contains(entries, hashes[i]) {
        RegisterCounts(p, entries, maxBlocks, hashes, blocks, i + 1);
      } else {
        var e := Evict(p, entries, maxBlocks);
        var o := P.Incref(e.pool, [blocks[i]]);
        if !(e.result.Err? || |e.entries| >= maxBlocks || o.result.Err?) {
          RegisterCounts(o.pool, e.entries + [Entry(hashes[i], blocks[i])], maxBlocks, hashes, blocks, i + 1);
        }
      }
    }
  }

  /** The blocks a call uses, in order: a lookup its longest cached prefix, a registration what it adds. */
  ghost function Uses(a: Arena, op: Op): seq<Hash> {
    if a.store.pool.blockSize == 0 then []
    else match op
      case Adopt(tokens, _) =>
        var hashes := BlockHashes(tokens, a.store.pool.blockSize);
        hashes[..LeadingHits(a.entries, hashes)]
      case Register(id, tokens) =>
        if id >= |a.caches| then []
        else Added(a.store.pool, a.entries, a.maxBlocks, BlockHashes(tokens, a.store.pool.blockSize), a.caches[id].table.blocks, 0)
      case _ => []
  }

  ghost function AllUses(a: Arena, ops: seq<Op>): seq<Hash>
    decreases |ops|
  {
    if ops == [] then [] else Uses(a, ops[0]) + AllUses(Call(a, ops[0]).arena, ops[1..])
  }

  /** Any calls, permitted or not, one after another. */
  function After(a: Arena, ops: seq<Op>): Arena
    decreases |ops|
  {
    if ops == [] then a else After(Call(a, ops[0]).arena, ops[1..])
  }

  lemma {:induction false} RunAfter(a: Arena, os: seq<Owner>, ops: seq<Op>, kvOf: (nat, seq<Token>) -> KV)
    requires Permitted(a, os, ops, kvOf)
    ensures Run(a, os, ops, kvOf).arena == After(a, ops)
    decreases |ops|
  {
    hide Call, Abstract, Enabled;
    if ops != [] {
      RunAfter(Call(a, ops[0]).arena, Abstract(a, os, ops[0], kvOf), ops[1..], kvOf);
    }
  }

  lemma CallRecent(a: Arena, op: Op, uses: seq<Hash>)
    requires Recent(a.entries, uses)
    ensures Recent(Call(a, op).arena.entries, uses + Uses(a, op))
  {
    hide Recent, RegisterFrom, Added, Match, LeadingHits, P.Incref, ReleaseAll, HashAt, BlockHashes, EnsureCapacity, ForkTable, FreeTable, Paging.Update;
    NothingRecent(uses);
    assert uses + [] == uses;
    match op
    case Adopt(tokens, _) =>
      if a.store.pool.blockSize > 0 {
        MatchRecent(a.entries, BlockHashes(tokens, a.store.pool.blockSize), uses);
      }
    case Register(id, tokens) =>
      if a.store.pool.blockSize > 0 && id < |a.caches| {
        RegisterRecent(a.store.pool, a.entries, a.maxBlocks, BlockHashes(tokens, a.store.pool.blockSize), a.caches[id].table.blocks, 0, uses);
      }
    case _ =>
  }

  lemma NothingRecent(uses: seq<Hash>)
    ensures Recent([], uses)
  {
  }

  lemma {:induction false} RunRecent(a: Arena, ops: seq<Op>, uses: seq<Hash>)
    requires Recent(a.entries, uses)
    ensures Recent(After(a, ops).entries, uses + AllUses(a, ops))
    decreases |ops|
  {
    hide Recent, Call, Uses;
    if ops == [] {
      assert uses + [] == uses;
    } else {
      CallRecent(a, ops[0], uses);
      var a1 := Call(a, ops[0]).arena;
      RunRecent(a1, ops[1..], uses + Uses(a, ops[0]));
      assert uses + Uses(a, ops[0]) + AllUses(a1, ops[1..]) == uses + AllUses(a, ops);
    }
  }

  /** Least recently used goes first, over any calls from a new arena: the entries stand in the order in which
      their blocks were last matched or added, and a block that is not cached, evicted or never there, was
      last used before every block that is. */
  lemma EvictsLeastRecent(layers: nat, numBlocks: nat, blockSize: nat, maxBlocks: nat, zero: KV, ops: seq<Op>, h: Hash, i: nat, j: nat)
    ensures var a0 := Arenas.Init(layers, numBlocks, blockSize, maxBlocks, zero);
      var entries, uses := After(a0, ops).entries, AllUses(a0, ops);
      && (i < j < |entries| ==> LastUse(uses, entries[i].hash) < LastUse(uses, entries[j].hash))
      && (i < |entries| && !Contains(entries, h) ==> LastUse(uses, h) < LastUse(uses, entries[i].hash))
  {
    hide LastUse, Contains, After, AllUses;
    var a0 := Arenas.Init(layers, numBlocks, blockSize, maxBlocks, zero);
    NothingRecent([]);
    RunRecent(a0, ops, []);
    assert [] + AllUses(a0, ops) == AllUses(a0, ops);
  }
}
