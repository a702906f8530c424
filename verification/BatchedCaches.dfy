/** The batched cache object (edgerag/cache/batched.py): members page into one pool, every update walks
    them, and `gather` and `padding_mask` fill their buffers row by row. */
module BatchedCaches {
  import opened Common
  import opened Tensors
  import opened Paging
  import opened Arenas
  import opened Allocator
  import opened PagedCaches
  import opened Batched
  import opened Scheduling
  import B = BlockPools

  function Range(lo: nat, hi: nat): (r: seq<nat>)
    requires lo <= hi
    ensures |r| == hi - lo && forall i :: 0 <= i < |r| ==> r[i] == lo + i
  {
    seq(hi - lo, i requires 0 <= i < hi - lo => lo + i)
  }

  /** The width of a batch: nothing is longer, and something is as long. */
  ghost predicate Longest(m: nat, lens: seq<nat>) {
    (forall i :: 0 <= i < |lens| ==> lens[i] <= m) && if lens == [] then m == 0 else m in lens
  }

  lemma MaxIsLongest(lens: seq<nat>)
    ensures Longest(MaxLen(lens), lens)
  {
  }

  class BatchedPagedCache {
    const allocator: BlockAllocator
    const pool: array3<KV>
    const zero: KV
    var sequences: seq<PagedKVCache>

    /** Members share this pool and are different sequences. */
    ghost predicate Valid()
      reads this, allocator
    {
      && allocator.Valid()
      && (forall i :: 0 <= i < |sequences| ==>
            && sequences[i].allocator == allocator && sequences[i].pool == pool && sequences[i].firstLayer == 0
            && sequences[i].table.allocator == allocator)
      && (forall i, j :: 0 <= i < j < |sequences| ==> sequences[i] != sequences[j] && sequences[i].table != sequences[j].table)
    }

    ghost function Members(): set<PagedKVCache>
      reads this
    {
      set c | c in sequences
    }

    ghost function Tables(): set<BlockTable>
      reads this
    {
      set c | c in sequences :: c.table
    }

    ghost function Views(): (r: seq<Cache>)
      reads this, Members(), Tables()
      ensures |r| == |sequences| && forall i :: 0 <= i < |sequences| ==> r[i] == sequences[i].View()
    {
      seq(|sequences|, i requires 0 <= i < |sequences| reads this, Members(), Tables() => assert sequences[i] in sequences; sequences[i].View())
    }

    /** The members as the tenants of one arena, in batch order. */
    ghost function AsArena(): Arena
      reads this, allocator, pool, Members(), Tables()
    {
      Arena(Store(allocator.View(), B.View(pool)), Views(), [], 0)
    }

    constructor (allocator: BlockAllocator, pool: array3<KV>, zero: KV)
      requires allocator.Valid()
      ensures Valid() && this.allocator == allocator && this.pool == pool && sequences == []
    {
      this.allocator, this.pool, this.zero := allocator, pool, zero;
      sequences := [];
    }

    method NewSequence() returns (c: PagedKVCache)
      requires Valid()
      ensures fresh(c) && fresh(c.table) && c.Valid() && c.allocator == allocator && c.pool == pool
      ensures c.View() == Cache(EMPTY_TABLE, 0, 0)
    {
      c := new PagedKVCache(allocator, pool, 0);
    }

    /** Batch membership is replaced whole; a sequence on another pool is refused and nothing changes. */
    method SetBatch(members: seq<PagedKVCache>) returns (r: Result<()>)
      requires Valid()
      requires forall i :: 0 <= i < |members| ==> members[i].allocator == allocator && members[i].firstLayer == 0 && members[i].table.allocator == allocator
      requires forall i, j :: 0 <= i < j < |members| ==> members[i] != members[j] && members[i].table != members[j].table
      modifies this
      ensures Valid()
      ensures r.Ok? <==> forall i :: 0 <= i < |members| ==> members[i].pool == pool
      ensures sequences == if r.Ok? then members else old(sequences)
    {
      var i := 0;
      while i < |members|
        invariant 0 <= i <= |members|
        invariant forall k :: 0 <= k < i ==> members[k].pool == pool
      {
        if members[i].pool != pool {
          return Err(ValueError);
        }
        i := i + 1;
      }
      sequences := members;
      return Ok(());
    }

    /** `lengths`. */
    ghost function Lens(): (r: seq<nat>)
      reads this, Members(), Tables()
      ensures |r| == |sequences| && forall i :: 0 <= i < |sequences| ==> r[i] == sequences[i].table.numTokens
    {
      seq(|sequences|, i requires 0 <= i < |sequences| reads this, Members(), Tables() => assert sequences[i] in sequences; sequences[i].table.numTokens)
    }

    lemma LensAre()
      ensures Lens() == Lengths(AsArena(), Range(0, |sequences|))
    {
    }

    method MaxLen() returns (m: nat)
      requires Valid()
      ensures m == Batched.MaxLen(Lens()) && Longest(m, Lens())
    {
      ghost var lens := Lens();
      m := 0;
      var i := 0;
      while i < |sequences|
        invariant 0 <= i <= |sequences|
        invariant forall k :: 0 <= k < i ==> lens[k] <= m
        invariant m == 0 || exists k :: 0 <= k < i && lens[k] == m
      {
        if sequences[i].table.numTokens > m {
          m := sequences[i].table.numTokens;
          assert lens[i] == m;
        }
        i := i + 1;
      }
    }

    method UpdateMember(i: nat, x: KV, layer: nat) returns (r: Result<seq<KV>>)
      requires Valid() && i < |sequences|
      modifies Members(), Tables(), allocator, pool
      ensures Valid() && sequences == old(sequences)
      ensures Done(AsArena(), r) == Call(old(AsArena()), Arenas.Update(i, layer, [x]))
    {
      hide Paging.Update;
      ghost var a := AsArena();
      assert sequences[i] in sequences;
      r := sequences[i].Update([x], layer);
      assert forall j :: 0 <= j < |sequences| && j != i ==> sequences[j] in sequences && Views()[j] == a.caches[j];
      assert Views() == a.caches[i := sequences[i].View()];
    }

    /** One new position for every member, before the padded histories are gathered. */
    method Update(news: seq<KV>, layer: nat) returns (r: Result<()>)
      requires Valid()
      modifies Members(), Tables(), allocator, pool
      ensures Valid() && sequences == old(sequences)
      ensures var u := UpdateBatch(old(AsArena()), Range(0, |sequences|), layer, news);
        AsArena() == u.arena && (r.Ok? <==> u.result.Ok?) && (r.Err? ==> r.error == u.result.error)
      ensures |news| != |sequences| ==> r == Err(ValueError) && AsArena() == old(AsArena())
      ensures |news| == |sequences| == 0 ==> r == Err(RuntimeFault) && AsArena() == old(AsArena())
    {
      hide AsArena, Call;
      if |news| != |sequences| {
        return Err(ValueError);
      }
      if |sequences| == 0 {
        return Err(RuntimeFault);
      }
      ghost var n := |sequences|;
      ghost var u := UpdateEach(AsArena(), Range(0, n), layer, news);
      assert news[0..] == news;
      var i := 0;
      while i < |sequences|
        invariant 0 <= i <= n && Valid() && sequences == old(sequences)
        invariant UpdateEach(AsArena(), Range(i, n), layer, news[i..]) == u
      {
        assert Range(i, n)[0] == i && Range(i, n)[1..] == Range(i + 1, n);
        assert news[i..][0] == news[i] && news[i..][1..] == news[i + 1..];
        var done := UpdateMember(i, news[i], layer);
        if done.Err? {
          return Err(done.error);
        }
        i := i + 1;
      }
      return Ok(());
    }

    /** One member's history, as `seq.gather` returns it. */
    method HistoryOf(i: nat, layer: nat) returns (history: seq<KV>)
      requires Valid() && i < |sequences| && layer < pool.Length0
      ensures history == GatherOne(AsArena(), i, layer)
    {
      var t := sequences[i].table;
      history := B.GatherFrom(pool, layer, Table(t.blocks, t.numTokens));
      assert sequences[i] in sequences && Views()[i].table == Table(t.blocks, t.numTokens);
    }

    /** Row `i` of a buffer filled with a padded history. */
    ghost predicate RowHolds(keys: array2<KV>, i: nat, row: seq<KV>)
      requires i < keys.Length0
      reads keys
    {
      |row| >= keys.Length1 && forall s :: 0 <= s < keys.Length1 ==> keys[i, s] == row[s]
    }

    /** Rows below `i` are done, the others still zero. */
    ghost predicate Filled(keys: array2<KV>, i: nat, rows: seq<seq<KV>>)
      requires i <= keys.Length0 <= |rows|
      reads keys
    {
      && (forall k :: 0 <= k < i ==> RowHolds(keys, k, rows[k]))
      && (forall k, s :: i <= k < keys.Length0 && 0 <= s < keys.Length1 ==> keys[k, s] == zero)
    }

    /** Put a history at the left of the next row. */
    method FillRow(keys: array2<KV>, i: nat, history: seq<KV>, ghost rows: seq<seq<KV>>)
      requires i < keys.Length0 <= |rows| && Filled(keys, i, rows) && rows[i] == Padded(history, keys.Length1, zero)
      modifies keys
      ensures Filled(keys, i + 1, rows)
    {
      var length := if |history| < keys.Length1 then |history| else keys.Length1;
      forall s | 0 <= s < length {
        keys[i, s] := history[s];
      }
    }

    lemma NothingFilled(keys: array2<KV>, rows: seq<seq<KV>>)
      requires keys.Length0 <= |rows| && forall k, s :: 0 <= k < keys.Length0 && 0 <= s < keys.Length1 ==> keys[k, s] == zero
      ensures Filled(keys, 0, rows)
    {
    }

    lemma RowsAre(layer: nat, rows: seq<seq<KV>>, width: nat)
      requires rows == GatherBatch(AsArena(), Range(0, |sequences|), layer, zero) && width == Batched.MaxLen(Lens())
      ensures |rows| == |sequences| && forall i :: 0 <= i < |sequences| ==> rows[i] == Padded(GatherOne(AsArena(), i, layer), width, zero)
    {
      LensAre();
    }

    /** The loop of `gather` over the members. */
    method FillRows(keys: array2<KV>, layer: nat, ghost rows: seq<seq<KV>>)
      requires Valid() && layer < pool.Length0 && keys.Length0 == |sequences| == |rows|
      requires forall i :: 0 <= i < |sequences| ==> rows[i] == Padded(GatherOne(AsArena(), i, layer), keys.Length1, zero)
      requires Filled(keys, 0, rows)
      modifies keys
      ensures Filled(keys, |sequences|, rows)
    {
      hide GatherOne, Padded, Filled;
      ghost var a := AsArena();
      var i := 0;
      while i < |sequences|
        invariant 0 <= i <= |sequences|
        invariant Filled(keys, i, rows)
        modifies keys
      {
        var history := HistoryOf(i, layer);
        assert AsArena() == a;
        FillRow(keys, i, history, rows);
        i := i + 1;
      }
    }

    /** `gather`: a zeroed buffer, as wide as the longest member, whose row `i` gets member `i`'s history on the
        left. */
    method Gather(layer: nat) returns (keys: array2<KV>)
      requires Valid() && layer < pool.Length0
      ensures fresh(keys) && keys.Length0 == |sequences|
      ensures Longest(keys.Length1, Lens())
      ensures forall i, s :: 0 <= i < |sequences| && 0 <= s < keys.Length1 ==>
        var history := Paging.Gather(AsArena().store.kv[layer], sequences[i].View().table);
        keys[i, s] == if s < |history| then history[s] else zero
    {
      hide GatherOne, Batched.MaxLen, Padded, GatherBatch, Filled, Lengths, Longest, Paging.Gather;
      ghost var a, lens := AsArena(), Lens();
      ghost var rows := GatherBatch(a, Range(0, |sequences|), layer, zero);
      var width := MaxLen();
      assert AsArena() == a && Lens() == lens;
      RowsAre(layer, rows, width);
      keys := new KV[|sequences|, width]((i, s) => zero);
      NothingFilled(keys, rows);
      assert AsArena() == a;
      FillRows(keys, layer, rows);
      assert AsArena() == a && Lens() == lens;
      RowsHold(keys, layer, rows);
    }

    /** A filled buffer, read entry by entry. */
    lemma RowsHold(keys: array2<KV>, layer: nat, rows: seq<seq<KV>>)
      requires Valid() && layer < pool.Length0 && keys.Length0 == |sequences| == |rows|
      requires forall i :: 0 <= i < |sequences| ==> rows[i] == Padded(GatherOne(AsArena(), i, layer), keys.Length1, zero)
      requires Filled(keys, |sequences|, rows)
      ensures forall i, s :: 0 <= i < |sequences| && 0 <= s < keys.Length1 ==>
        var history := Paging.Gather(AsArena().store.kv[layer], sequences[i].View().table);
        keys[i, s] == if s < |history| then history[s] else zero
    {
      hide Paging.Gather;
      forall i, s | 0 <= i < |sequences| && 0 <= s < keys.Length1
        ensures var history := Paging.Gather(AsArena().store.kv[layer], sequences[i].View().table);
          keys[i, s] == if s < |history| then history[s] else zero
      {
        assert RowHolds(keys, i, rows[i]);
        assert GatherOne(AsArena(), i, layer) == Paging.Gather(AsArena().store.kv[layer], sequences[i].View().table);
      }
    }

    /** Rows below `i` show their own positions and the new ones, the others nothing. */
    ghost predicate Masked(mask: array2<bool>, i: nat, lens: seq<nat>, nNew: nat)
      requires i <= mask.Length0 <= |lens|
      reads mask
    {
      forall j, k :: 0 <= j < mask.Length0 && 0 <= k < mask.Length1 ==> mask[j, k] == (j < i && k < lens[j] + nNew)
    }

    method MaskRow(mask: array2<bool>, i: nat, filled: nat, ghost lens: seq<nat>, ghost nNew: nat)
      requires i < mask.Length0 <= |lens| && Masked(mask, i, lens, nNew) && filled == lens[i] + nNew
      modifies mask
      ensures Masked(mask, i + 1, lens, nNew)
    {
      forall k | 0 <= k < mask.Length1 && k < filled {
        mask[i, k] := true;
      }
    }

    /** `padding_mask`: true where a position holds a real token after the next write. */
    method PaddingMask(nNew: nat) returns (mask: array2<bool>)
      requires Valid()
      ensures fresh(mask) && mask.Length0 == |sequences|
      ensures exists longest: nat :: Longest(longest, Lens()) && mask.Length1 == longest + nNew
      ensures forall i, k :: 0 <= i < |sequences| && 0 <= k < mask.Length1 ==> mask[i, k] == (k < Lens()[i] + nNew)
    {
      hide Longest, Batched.MaxLen;
      ghost var lens := Lens();
      var longest := MaxLen();
      assert Longest(longest, lens) by { assert Lens() == lens; }
      mask := new bool[|sequences|, longest + nNew]((i, k) => false);
      var i := 0;
      while i < |sequences|
        invariant 0 <= i <= |sequences|
        invariant Masked(mask, i, lens, nNew)
        modifies mask
      {
        MaskRow(mask, i, sequences[i].table.numTokens + nNew, lens, nNew);
        i := i + 1;
      }
      assert Lens() == lens;
    }

    /** Each sequence continues from its own length. */
    method PositionIds() returns (r: seq<nat>)
      requires Valid()
      ensures r == Lens()
    {
      r := seq(|sequences|, i requires 0 <= i < |sequences| reads this, Members(), Tables() => assert sequences[i] in sequences; sequences[i].table.numTokens);
    }
  }
}
