/** What the prefix cache keeps: exact references, the longest match, and sound contents. */
module PrefixProofs {
  import opened Common
  import opened Tensors
  import opened Paging
  import opened Prefixes
  import P = Pools

  ghost function Refs(entries: seq<Entry>): multiset<Block> {
    multiset(Blocks(entries))
  }

  /** Keys are unique, and the counts are exact for the cache's own references plus `others`. */
  ghost predicate Cached(p: P.Pool, entries: seq<Entry>, others: multiset<Block>) {
    P.Exact(p, Refs(entries) + others) && Distinct(Keys(entries))
  }

  /** The KV that block number `|tokens| / bs - 1` of a sequence starting with `tokens` holds, when
      position `i` of layer `l` holds `kvOf(l, first i+1 tokens)`. */
  ghost function BlockKV(kvOf: (nat, seq<Token>) -> KV, l: nat, tokens: seq<Token>, bs: nat): (r: seq<KV>)
    requires bs <= |tokens|
    ensures |r| == bs
    ensures forall s :: 0 <= s < bs ==> r[s] == kvOf(l, tokens[..|tokens| - bs + s + 1])
  {
    seq(bs, s requires 0 <= s < bs => kvOf(l, tokens[..|tokens| - bs + s + 1]))
  }

  ghost function PrefixKV(kvOf: (nat, seq<Token>) -> KV, l: nat, tokens: seq<Token>, n: nat): (r: seq<KV>)
    requires n <= |tokens|
    ensures |r| == n
    ensures forall i :: 0 <= i < n ==> r[i] == kvOf(l, tokens[..i + 1])
  {
    seq(n, i requires 0 <= i < n => kvOf(l, tokens[..i + 1]))
  }

  ghost predicate SoundEntry(kv: seq<Layer>, bs: nat, e: Entry, kvOf: (nat, seq<Token>) -> KV) {
    && bs <= |HashTokens(e.hash)|
    && forall l :: 0 <= l < |kv| ==> Row(kv[l], e.block) == BlockKV(kvOf, l, HashTokens(e.hash), bs)
  }

  ghost predicate Sound(kv: seq<Layer>, bs: nat, entries: seq<Entry>, kvOf: (nat, seq<Token>) -> KV) {
    forall i :: 0 <= i < |entries| ==> SoundEntry(kv, bs, entries[i], kvOf)
  }

  // -------------------------------------------------------------------------- reordering entries

  lemma RefsSplit(a: seq<Entry>, b: seq<Entry>)
    ensures Refs(a + b) == Refs(a) + Refs(b)
  {
    assert Blocks(a + b) == Blocks(a) + Blocks(b);
  }

  lemma RefsOne(e: Entry)
    ensures Refs([e]) == multiset{e.block}
  {
    assert Blocks([e]) == [e.block];
  }

  /** Refreshing an entry only reorders. */
  lemma MoveToEndReorders(entries: seq<Entry>, h: Hash)
    requires Distinct(Keys(entries))
    ensures var r := MoveToEnd(entries, h);
      Refs(r) == Refs(entries) && Distinct(Keys(r)) && forall e :: e in r <==> e in entries
  {
    MoveToEndDistinct(entries, h);
    var i := Find(entries, h);
    if i < |entries| {
      MovedRefs(entries[..i], entries[i], entries[i + 1..]);
      assert entries == entries[..i] + [entries[i]] + entries[i + 1..];
    }
    hide *;
  }

  lemma MovedRefs(a: seq<Entry>, e: Entry, b: seq<Entry>)
    ensures Refs(a + b + [e]) == Refs(a + [e] + b)
    ensures forall x :: x in a + b + [e] <==> x in a + [e] + b
  {
    hide Refs;
    RefsSplit(a + b, [e]);
    RefsSplit(a, b);
    RefsSplit(a + [e], b);
    RefsSplit(a, [e]);
  }

  lemma MoveToEndDistinct(entries: seq<Entry>, h: Hash)
    requires Distinct(Keys(entries))
    ensures Distinct(Keys(MoveToEnd(entries, h)))
  {
    var i, r := Find(entries, h), MoveToEnd(entries, h);
    if i < |entries| {
      forall j, k | 0 <= j < k < |r| ensures Keys(r)[j] != Keys(r)[k] {
        var j', k' := if j < i then j else j + 1, if k < i then k else if k == |r| - 1 then i else k + 1;
        assert r[j] == entries[j'] && r[k] == entries[k'];
        assert Keys(entries)[j'] != Keys(entries)[k'];
      }
    }
  }

  lemma ContainsMember(entries: seq<Entry>, h: Hash)
    ensures Contains(entries, h) <==> exists e :: e in entries && e.hash == h
    ensures Contains(entries, h) ==> entries[Find(entries, h)] == Entry(h, entries[Find(entries, h)].block)
  {
    if Contains(entries, h) {
      assert entries[Find(entries, h)] in entries;
    }
  }

  /** How many leading blocks of a prompt are cached already. */
  ghost function LeadingHits(entries: seq<Entry>, hashes: seq<Hash>): (m: nat)
    ensures m <= |hashes|
  {
    if hashes == [] || !Contains(entries, hashes[0]) then 0 else 1 + LeadingHits(entries, hashes[1..])
  }

  lemma {:induction false} LeadingHitsAre(entries: seq<Entry>, hashes: seq<Hash>)
    ensures var m := LeadingHits(entries, hashes);
      && (forall j :: 0 <= j < m ==> Contains(entries, hashes[j]))
      && (m < |hashes| ==> !Contains(entries, hashes[m]))
  {
    hide Contains;
    if hashes != [] && Contains(entries, hashes[0]) {
      LeadingHitsAre(entries, hashes[1..]);
    }
  }

  lemma {:induction false} HitsUnique(entries: seq<Entry>, hashes: seq<Hash>, n: nat)
    requires n <= |hashes| && forall j :: 0 <= j < n ==> Contains(entries, hashes[j])
    requires n < |hashes| ==> !Contains(entries, hashes[n])
    ensures n == LeadingHits(entries, hashes)
    decreases n
  {
    hide Contains;
    if n > 0 {
      forall j | 0 <= j < n - 1 ensures Contains(entries, hashes[1..][j]) {
        assert Contains(entries, hashes[j + 1]);
      }
      HitsUnique(entries, hashes[1..], n - 1);
    }
  }

  /** The match is the longest run of leading blocks that are present, each block being the one its
      hash is stored under; entries are only reordered. */
  lemma {:induction false} MatchLongest(entries: seq<Entry>, hashes: seq<Hash>)
    requires Distinct(Keys(entries))
    ensures var m := Match(entries, hashes);
      && Refs(m.entries) == Refs(entries) && Distinct(Keys(m.entries)) && |m.entries| == |entries|
      && (forall e :: e in m.entries <==> e in entries)
      && |m.blocks| <= |hashes|
      && (forall i :: 0 <= i < |m.blocks| ==> Entry(hashes[i], m.blocks[i]) in entries)
      && (|m.blocks| < |hashes| ==> !Contains(entries, hashes[|m.blocks|]))
    decreases |hashes|
  {
    hide MoveToEnd, Refs, Contains, Keys;
    if hashes != [] && Contains(entries, hashes[0]) {
      MoveToEndReorders(entries, hashes[0]);
      var moved := MoveToEnd(entries, hashes[0]);
      MatchLongest(moved, hashes[1..]);
      ContainsMember(entries, hashes[0]);
      var m := Match(entries, hashes);
      if |m.blocks| < |hashes| {
        ContainsMember(entries, hashes[|m.blocks|]);
        ContainsMember(moved, hashes[|m.blocks|]);
      }
    }
  }

  /** The references for what was matched go to the caller; nothing else changes hands. */
  lemma LookupCorrect(p: P.Pool, entries: seq<Entry>, others: multiset<Block>, tokens: seq<Token>)
    requires p.blockSize > 0 && Cached(p, entries, others)
    ensures var o := Lookup(p, entries, tokens);
      var hashes := BlockHashes(tokens, p.blockSize);
      && o.result.Ok?
      && var blocks := o.result.value.0;
      && o.result.value.1 == |blocks| * p.blockSize
      && Cached(o.pool, o.entries, others + multiset(blocks)) && |o.entries| == |entries|
      && |o.pool.refcount| == |p.refcount| && o.pool.blockSize == p.blockSize
      && (forall e :: e in o.entries <==> e in entries) && Refs(o.entries) == Refs(entries)
      && |blocks| <= |hashes|
      && (forall i :: 0 <= i < |blocks| ==> Entry(hashes[i], blocks[i]) in entries)
      && (|blocks| < |hashes| ==> !Contains(entries, hashes[|blocks|]))
  {
    var hashes := BlockHashes(tokens, p.blockSize);
    var m := Match(entries, hashes);
    hide Match, P.Exact, P.Incref, BlockHashes, HashAt, Contains, Keys, Refs;
    MatchLongest(entries, hashes);
    MatchedHeld(entries, hashes, m.blocks, others);
    P.IncrefExact(p, Refs(entries) + others, m.blocks);
    P.IncrefShape(p, m.blocks);
    assert Refs(entries) + others + multiset(m.blocks) == Refs(m.entries) + (others + multiset(m.blocks));
    if m.blocks == [] {
      assert others + multiset(m.blocks) == others;
    }
  }

  lemma MatchedHeld(entries: seq<Entry>, hashes: seq<Hash>, blocks: seq<Block>, others: multiset<Block>)
    requires |blocks| <= |hashes|
    requires forall i :: 0 <= i < |blocks| ==> Entry(hashes[i], blocks[i]) in entries
    ensures forall b :: b in blocks ==> b in Refs(entries) + others
  {
    forall b | b in blocks ensures b in Refs(entries) + others {
      var i :| 0 <= i < |blocks| && blocks[i] == b;
      EntryHeld(entries, Entry(hashes[i], b));
    }
  }

  lemma EntryHeld(entries: seq<Entry>, e: Entry)
    requires e in entries
    ensures e.block in Refs(entries)
  {
    var i :| 0 <= i < |entries| && entries[i] == e;
    assert Blocks(entries)[i] == e.block;
  }

  // ----------------------------------------------------------------------------------- eviction

  /** Dropping the oldest entry releases exactly its one reference. */
  lemma PopExact(p: P.Pool, entries: seq<Entry>, others: multiset<Block>)
    requires Cached(p, entries, others) && entries != []
    ensures var o := P.Free(p, [entries[0].block]);
      o.result.Ok? && Cached(o.pool, entries[1..], others)
      && |o.pool.refcount| == |p.refcount| && o.pool.blockSize == p.blockSize
  {
    assert entries == [entries[0]] + entries[1..];
    RefsSplit([entries[0]], entries[1..]);
    RefsOne(entries[0]);
    assert multiset([entries[0].block]) == multiset{entries[0].block};
    P.FreeExact(p, Refs(entries) + others, [entries[0].block]);
    assert Refs(entries) + others - multiset([entries[0].block]) == Refs(entries[1..]) + others;
    var ks := Keys(entries[1..]);
    forall i, j | 0 <= i < j < |ks| ensures ks[i] != ks[j] {
      assert Keys(entries)[i + 1] != Keys(entries)[j + 1];
    }
  }

  lemma {:induction false} EvictCorrect(p: P.Pool, entries: seq<Entry>, maxBlocks: nat, others: multiset<Block>)
    requires Cached(p, entries, others)
    ensures var o := Evict(p, entries, maxBlocks);
      && o.result.Ok? && Cached(o.pool, o.entries, others)
      && |o.pool.refcount| == |p.refcount| && o.pool.blockSize == p.blockSize
      && |o.entries| == (if |entries| < maxBlocks then |entries| else Max(0, maxBlocks - 1))
      && |o.entries| <= |entries| && o.entries == entries[|entries| - |o.entries|..]
    decreases |entries|
  {
    hide Cached, P.Free, Refs, Keys;
    if |entries| >= maxBlocks && entries != [] {
      PopExact(p, entries, others);
      var o := P.Free(p, [entries[0].block]);
      EvictCorrect(o.pool, entries[1..], maxBlocks, others);
    }
  }

  lemma {:induction false} ClearCorrect(p: P.Pool, entries: seq<Entry>, others: multiset<Block>)
    requires Cached(p, entries, others)
    ensures var o := Clear(p, entries);
      && o.result.Ok? && o.entries == [] && P.Exact(o.pool, others)
      && |o.pool.refcount| == |p.refcount| && o.pool.blockSize == p.blockSize
    decreases |entries|
  {
    if entries != [] {
      PopExact(p, entries, others);
      var o := P.Free(p, [entries[0].block]);
      ClearCorrect(o.pool, entries[1..], others);
    } else {
      assert Refs(entries) + others == others;
    }
  }

  // ------------------------------------------------------------------------------- registration

  lemma StoreEntry(p: P.Pool, entries: seq<Entry>, others: multiset<Block>, e: Entry)
    requires Cached(p, entries, others) && e.block in others && !Contains(entries, e.hash)
    ensures var o := P.Incref(p, [e.block]);
      o.result.Ok? && Cached(o.pool, entries + [e], others)
      && |o.pool.refcount| == |p.refcount| && o.pool.blockSize == p.blockSize
  {
    P.IncrefExact(p, Refs(entries) + others, [e.block]);
    RefsSplit(entries, [e]);
    RefsOne(e);
    assert multiset([e.block]) == multiset{e.block};
    assert Refs(entries) + others + multiset([e.block]) == Refs(entries + [e]) + others;
    var ks := Keys(entries + [e]);
    forall i, j | 0 <= i < j < |ks| ensures ks[i] != ks[j] {
      if j < |entries| {
        assert Keys(entries)[i] != Keys(entries)[j];
      } else {
        ContainsMember(entries, e.hash);
        assert entries[i] in entries;
      }
    }
  }

  /** Everything in the cache after registration was there before or is a full block of the
      registered sequence under its own chained hash. */
  ghost predicate FromOld(entries': seq<Entry>, entries: seq<Entry>, hashes: seq<Hash>, blocks: seq<Block>) {
    forall e :: e in entries' ==>
      e in entries || exists i :: 0 <= i < |hashes| && i < |blocks| && e == Entry(hashes[i], blocks[i])
  }

  lemma {:induction false} RegisterFromCorrect(p: P.Pool, entries: seq<Entry>, maxBlocks: nat, hashes: seq<Hash>, blocks: seq<Block>, i: nat, others: multiset<Block>)
    requires Cached(p, entries, others) && |entries| <= maxBlocks
    requires forall b :: b in blocks ==> b in others
    ensures var o := RegisterFrom(p, entries, maxBlocks, hashes, blocks, i);
      && o.result.Ok? && Cached(o.pool, o.entries, others)
      && |o.pool.refcount| == |p.refcount| && o.pool.blockSize == p.blockSize
      && |o.entries| <= maxBlocks
      && FromOld(o.entries, entries, hashes, blocks)
    decreases |hashes| - i
  {
    hide Cached, FromOld, Contains, P.Incref, Evict;
    if i >= |hashes| {
      FromOldRefl(entries, hashes, blocks);
    } else if i >= |blocks| || Contains(entries, hashes[i]) {
      RegisterFromCorrect(p, entries, maxBlocks, hashes, blocks, i + 1, others);
    } else {
      EvictCorrect(p, entries, maxBlocks, others);
      var ev := Evict(p, entries, maxBlocks);
      if |ev.entries| < maxBlocks {
        var e := Entry(hashes[i], blocks[i]);
        StillAbsent(entries, ev.entries, e.hash);
        StoreEntry(ev.pool, ev.entries, others, e);
        var o := P.Incref(ev.pool, [blocks[i]]);
        RegisterFromCorrect(o.pool, ev.entries + [e], maxBlocks, hashes, blocks, i + 1, others);
        var rest := RegisterFrom(o.pool, ev.entries + [e], maxBlocks, hashes, blocks, i + 1);
        FromOldStep(rest.entries, ev.entries, entries, hashes, blocks, i);
      } else {
        FromOldRefl(ev.entries, hashes, blocks);
        assert ev.entries == [];
        FromOldEmpty(entries, hashes, blocks);
      }
    }
  }

  lemma StillAbsent(entries: seq<Entry>, suffix: seq<Entry>, h: Hash)
    requires |suffix| <= |entries| && suffix == entries[|entries| - |suffix|..]
    requires !Contains(entries, h)
    ensures !Contains(suffix, h)
  {
    ContainsMember(entries, h);
    ContainsMember(suffix, h);
  }

  lemma StillThere(entries: seq<Entry>, e: Entry, h: Hash)
    ensures Contains(entries + [e], h) <==> Contains(entries, h) || e.hash == h
  {
    ContainsMember(entries, h);
    ContainsMember(entries + [e], h);
    if Contains(entries, h) {
      var i := Find(entries, h);
      assert (entries + [e])[i] == entries[i];
    }
    if e.hash == h {
      assert (entries + [e])[|entries|] == e;
    }
  }

  /** With room for all of them, every full block gets an entry, nothing is evicted, and the count is
      what was added. */
  lemma {:induction false} RegistersAll(p: P.Pool, entries: seq<Entry>, maxBlocks: nat, hashes: seq<Hash>, blocks: seq<Block>, i: nat, others: multiset<Block>)
    requires Cached(p, entries, others) && i <= |hashes| <= |blocks| && |entries| + |hashes| - i <= maxBlocks
    requires forall b :: b in blocks ==> b in others
    ensures var o := RegisterFrom(p, entries, maxBlocks, hashes, blocks, i);
      && entries <= o.entries && o.result == Ok(|o.entries| - |entries|)
      && (forall j :: i <= j < |hashes| ==> Contains(o.entries, hashes[j]))
      && (forall h :: Contains(entries, h) ==> Contains(o.entries, h))
    decreases |hashes| - i
  {
    hide Cached, P.Incref, Find, Refs, Keys;
    if i < |hashes| {
      if Contains(entries, hashes[i]) {
        RegistersAll(p, entries, maxBlocks, hashes, blocks, i + 1, others);
      } else {
        assert Evict(p, entries, maxBlocks) == PrefixOut(p, entries, Ok(()));
        var e := Entry(hashes[i], blocks[i]);
        StoreEntry(p, entries, others, e);
        var o := P.Incref(p, [blocks[i]]);
        forall h ensures Contains(entries + [e], h) <==> Contains(entries, h) || e.hash == h { StillThere(entries, e, h); }
        RegistersAll(o.pool, entries + [e], maxBlocks, hashes, blocks, i + 1, others);
      }
    }
  }

  /** Even without room, the last full block registered is there afterwards: later ones push out
      earlier ones, never the other way round. */
  lemma {:induction false} RegistersLast(p: P.Pool, entries: seq<Entry>, maxBlocks: nat, hashes: seq<Hash>, blocks: seq<Block>, i: nat, others: multiset<Block>)
    requires Cached(p, entries, others) && i < |hashes| <= |blocks| && |entries| <= maxBlocks && maxBlocks > 0
    requires forall b :: b in blocks ==> b in others
    ensures Contains(RegisterFrom(p, entries, maxBlocks, hashes, blocks, i).entries, hashes[|hashes| - 1])
    decreases |hashes| - i
  {
    hide Cached, P.Incref, Find, Refs, Keys, Evict;
    var last := hashes[|hashes| - 1];
    if Contains(entries, hashes[i]) {
      if i + 1 < |hashes| {
        RegistersLast(p, entries, maxBlocks, hashes, blocks, i + 1, others);
      }
    } else {
      EvictCorrect(p, entries, maxBlocks, others);
      var ev := Evict(p, entries, maxBlocks);
      StillAbsent(entries, ev.entries, hashes[i]);
      var e := Entry(hashes[i], blocks[i]);
      StoreEntry(ev.pool, ev.entries, others, e);
      var o := P.Incref(ev.pool, [blocks[i]]);
      StillThere(ev.entries, e, hashes[i]);
      if i + 1 < |hashes| {
        RegistersLast(o.pool, ev.entries + [e], maxBlocks, hashes, blocks, i + 1, others);
      }
    }
  }

  lemma FromOldRefl(entries: seq<Entry>, hashes: seq<Hash>, blocks: seq<Block>)
    ensures FromOld(entries, entries, hashes, blocks)
  {
  }

  lemma FromOldEmpty(entries: seq<Entry>, hashes: seq<Hash>, blocks: seq<Block>)
    ensures FromOld([], entries, hashes, blocks)
  {
  }

  lemma FromOldStep(final: seq<Entry>, kept: seq<Entry>, entries: seq<Entry>, hashes: seq<Hash>, blocks: seq<Block>, i: nat)
    requires i < |hashes| && i < |blocks|
    requires |kept| <= |entries| && kept == entries[|entries| - |kept|..]
    requires FromOld(final, kept + [Entry(hashes[i], blocks[i])], hashes, blocks)
    ensures FromOld(final, entries, hashes, blocks)
  {
    forall e | e in final
      ensures e in entries || exists j :: 0 <= j < |hashes| && j < |blocks| && e == Entry(hashes[j], blocks[j])
    {
      if e in kept + [Entry(hashes[i], blocks[i])] && e !in kept {
        assert e == Entry(hashes[i], blocks[i]);
      }
    }
  }

  // ----------------------------------------------------------------------------------- contents

  /** At every layer the history starts with the KV of `tokens`. */
  ghost predicate HistIs(h: Hist, tokens: seq<Token>, kvOf: (nat, seq<Token>) -> KV) {
    forall l :: 0 <= l < |h| ==> |tokens| <= |h[l]| && h[l][..|tokens|] == PrefixKV(kvOf, l, tokens, |tokens|)
  }

  /** A full block of a sequence whose history is the KV of its tokens is a sound entry under the
      chained hash of that block. */
  lemma FullBlockSound(s: Store, c: Cache, h: Hist, tokens: seq<Token>, i: nat, kvOf: (nat, seq<Token>) -> KV)
    requires Shaped(s) && Rep(s, c, h) && HistIs(h, tokens, kvOf)
    requires forall b :: b in c.table.blocks ==> P.InRange(s.pool, b)
    requires s.pool.blockSize > 0 && i < |tokens| / s.pool.blockSize && i < |c.table.blocks|
    ensures SoundEntry(s.kv, s.pool.blockSize, Entry(HashAt(tokens, s.pool.blockSize, i + 1), c.table.blocks[i]), kvOf)
  {
    var bs := s.pool.blockSize;
    hide Row, BlockKV, HashAt, HashTokens, Rep, Shaped, HistIs, P.InRange;
    HashTokensAt(tokens, bs, i + 1);
    var toks := tokens[..(i + 1) * bs];
    FullBlockRows(s, c, h, tokens, toks, i, kvOf);
  }

  lemma FullBlockRows(s: Store, c: Cache, h: Hist, tokens: seq<Token>, toks: seq<Token>, i: nat, kvOf: (nat, seq<Token>) -> KV)
    requires Shaped(s) && Rep(s, c, h) && HistIs(h, tokens, kvOf)
    requires forall b :: b in c.table.blocks ==> P.InRange(s.pool, b)
    requires i < |c.table.blocks| && |toks| == (i + 1) * s.pool.blockSize && toks <= tokens
    ensures s.pool.blockSize <= |toks|
    ensures forall l :: 0 <= l < |s.kv| ==> Row(s.kv[l], c.table.blocks[i]) == BlockKV(kvOf, l, toks, s.pool.blockSize)
  {
    hide Row, BlockKV, PrefixKV, Flat;
    var bs, blocks := s.pool.blockSize, c.table.blocks;
    assert (i + 1) * bs == i * bs + bs;
    RowsSized(s, blocks);
    forall l | 0 <= l < |s.kv| ensures Row(s.kv[l], blocks[i]) == BlockKV(kvOf, l, toks, bs) {
      FullBlockRow(s.kv[l], blocks, h[l], bs, i, i * bs, l, tokens, toks, kvOf);
    }
  }

  lemma FullBlockRow(layer: Layer, blocks: seq<Block>, hl: seq<KV>, bs: nat, i: nat, start: nat, l: nat, tokens: seq<Token>, toks: seq<Token>, kvOf: (nat, seq<Token>) -> KV)
    requires i < |blocks| && forall k :: 0 <= k < |blocks| ==> |Row(layer, blocks[k])| == bs
    requires hl <= Flat(layer, blocks) && |tokens| <= |hl|
    requires start == i * bs && |toks| == start + bs && toks <= tokens
    requires hl[..|tokens|] == PrefixKV(kvOf, l, tokens, |tokens|)
    ensures Row(layer, blocks[i]) == BlockKV(kvOf, l, toks, bs)
  {
    hide Row, Concat;
    var rows := Rows(layer, blocks);
    ConcatRow(rows, bs, i);
    forall t | 0 <= t < bs ensures rows[i][t] == BlockKV(kvOf, l, toks, bs)[t] {
      var at := start + t;
      assert Concat(rows)[at] == hl[at] == hl[..|tokens|][at];
      assert tokens[..at + 1] == toks[..at + 1];
    }
  }

  lemma RowsSized(s: Store, blocks: seq<Block>)
    requires Shaped(s) && forall b :: b in blocks ==> P.InRange(s.pool, b)
    ensures forall l, k :: 0 <= l < |s.kv| && 0 <= k < |blocks| ==> |Row(s.kv[l], blocks[k])| == s.pool.blockSize
  {
    forall l, k | 0 <= l < |s.kv| && 0 <= k < |blocks|
      ensures |Row(s.kv[l], blocks[k])| == s.pool.blockSize
    {
      assert blocks[k] in blocks;
    }
  }

  lemma {:induction false} ConcatRow(rows: seq<seq<KV>>, bs: nat, i: nat)
    requires i < |rows|
    requires forall k :: 0 <= k < |rows| ==> |rows[k]| == bs
    ensures i * bs + bs <= |Concat(rows)|
    ensures forall t :: 0 <= t < bs ==> Concat(rows)[i * bs + t] == rows[i][t]
  {
    ConcatLength(rows, bs);
    MulLe(i + 1, |rows|, bs);
    assert (i + 1) * bs == i * bs + bs;
    if i > 0 {
      ConcatRow(rows[1..], bs, i - 1);
      assert i * bs == bs + (i - 1) * bs;
    }
  }

  /** Blocks found under the hashes of a prompt join to the KV of that prompt's prefix. */
  lemma {:induction false} MatchedHistory(kv: seq<Layer>, l: nat, bs: nat, tokens: seq<Token>, blocks: seq<Block>, kvOf: (nat, seq<Token>) -> KV)
    requires bs > 0 && l < |kv| && |blocks| <= |tokens| / bs
    requires forall i :: 0 <= i < |blocks| ==> SoundEntry(kv, bs, Entry(HashAt(tokens, bs, i + 1), blocks[i]), kvOf)
    ensures |blocks| * bs <= |tokens|
    ensures Flat(kv[l], blocks) == PrefixKV(kvOf, l, tokens, |blocks| * bs)
    decreases |blocks|
  {
    var n := |blocks|;
    FullBlocks(|tokens|, bs, n);
    if n > 0 {
      var init, last := blocks[..n - 1], blocks[n - 1];
      assert blocks == init + [last];
      MatchedHistory(kv, l, bs, tokens, init, kvOf);
      FlatAppend(kv[l], init, [last]);
      assert SoundEntry(kv, bs, Entry(HashAt(tokens, bs, n - 1 + 1), blocks[n - 1]), kvOf);
      HashTokensAt(tokens, bs, n);
      var toks := tokens[..n * bs];
      LastBlockKV(kvOf, l, tokens, bs, n);
      assert Rows(kv[l], [last]) == [Row(kv[l], last)];
      assert Concat([Row(kv[l], last)]) == Row(kv[l], last) + Concat([]);
      assert Flat(kv[l], [last]) == BlockKV(kvOf, l, toks, bs);
    } else {
      assert Flat(kv[l], blocks) == [];
    }
  }

  lemma LastBlockKV(kvOf: (nat, seq<Token>) -> KV, l: nat, tokens: seq<Token>, bs: nat, n: nat)
    requires bs > 0 && 0 < n && n * bs <= |tokens| && (n - 1) * bs + bs == n * bs && (n - 1) * bs <= |tokens|
    ensures PrefixKV(kvOf, l, tokens, n * bs) ==
            PrefixKV(kvOf, l, tokens, (n - 1) * bs) + BlockKV(kvOf, l, tokens[..n * bs], bs)
  {
    var toks := tokens[..n * bs];
    forall s | 0 <= s < bs
      ensures BlockKV(kvOf, l, toks, bs)[s] == kvOf(l, tokens[..(n - 1) * bs + s + 1])
    {
      assert toks[..|toks| - bs + s + 1] == tokens[..(n - 1) * bs + s + 1];
    }
  }
}
