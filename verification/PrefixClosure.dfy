/** Whether the prefix cache's entries are closed under taking the parent block: registering with room
    keeps them so, eviction does exactly when it drops nobody's parent, and otherwise blocks stay
    behind that no lookup can reach. */
module PrefixClosure {
  import opened Common
  import opened Tensors
  import opened Paging
  import opened WriteCosts
  import opened Prefixes
  import opened PrefixProofs
  import opened Arenas
  import opened ArenaProofs
  import opened ArenaRuns
  import opened Owners
  import opened Prefills
  import opened Unsharing
  import opened SwapProofs
  import P = Pools

  predicate HasParent(entries: seq<Entry>, h: Hash) {
    h.Chain? && (h.parent == Root || Contains(entries, h.parent))
  }

  /** Every entry's parent block is cached too. */
  ghost predicate PrefixClosed(entries: seq<Entry>) {
    forall i :: 0 <= i < |entries| ==> HasParent(entries, entries[i].hash)
  }

  lemma ContainsAt(entries: seq<Entry>, i: nat, h: Hash)
    requires i < |entries| && entries[i].hash == h
    ensures Contains(entries, h)
  {
    ContainsMember(entries, h);
    assert entries[i] in entries;
  }

  /** In closed entries a cached block brings all before it: whatever is cached of a prompt is found. */
  lemma {:induction false} ClosedReaches(entries: seq<Entry>, tokens: seq<Token>, bs: nat, k: nat, j: nat)
    requires bs > 0 && k <= |tokens| / bs && 0 < j <= k
    requires PrefixClosed(entries) && Contains(entries, HashAt(tokens, bs, k))
    ensures Contains(entries, HashAt(tokens, bs, j))
    decreases k
  {
    if j < k {
      var h := HashAt(tokens, bs, k);
      var i := Find(entries, h);
      assert HasParent(entries, entries[i].hash);
      assert HashAt(tokens, bs, k - 1) != Root;
      ClosedReaches(entries, tokens, bs, k - 1, j);
    }
  }

  // ----------------------------------------------------------------------------------- eviction

  /** How many entries the next eviction drops: all that stand in the way of one more. */
  ghost function Dropped(entries: seq<Entry>, maxBlocks: nat): nat {
    if |entries| < maxBlocks then 0 else |entries| - Max(0, maxBlocks - 1)
  }

  /** One of the oldest `k` entries is the parent of one of the others. */
  ghost predicate DropsParent(entries: seq<Entry>, k: nat)
    requires k <= |entries|
  {
    exists i, j :: k <= i < |entries| && 0 <= j < k && IsParent(entries[j], entries[i])
  }

  predicate IsParent(parent: Entry, child: Entry) {
    child.hash.Chain? && child.hash.parent == parent.hash
  }

  lemma SuffixContains(entries: seq<Entry>, k: nat, h: Hash)
    requires k <= |entries| && Distinct(Keys(entries))
    ensures Contains(entries[k..], h) <==> Contains(entries, h) && forall j :: 0 <= j < k ==> entries[j].hash != h
  {
    var rest := entries[k..];
    if Contains(rest, h) {
      var i := Find(rest, h);
      assert entries[k + i].hash == h;
      ContainsAt(entries, k + i, h);
      forall j | 0 <= j < k ensures entries[j].hash != h {
        assert Keys(entries)[j] != Keys(entries)[k + i];
      }
    } else if Contains(entries, h) {
      var i := Find(entries, h);
      if i >= k {
        ContainsAt(rest, i - k, h);
      }
    }
  }

  lemma SuffixClosedIff(entries: seq<Entry>, k: nat)
    requires k <= |entries| && Distinct(Keys(entries)) && PrefixClosed(entries) && RootFree(entries)
    ensures PrefixClosed(entries[k..]) <==> !DropsParent(entries, k)
  {
    var rest := entries[k..];
    if PrefixClosed(rest) {
      forall i, j | k <= i < |entries| && 0 <= j < k ensures !IsParent(entries[j], entries[i]) {
        assert HasParent(rest, rest[i - k].hash);
        if IsParent(entries[j], entries[i]) {
          assert entries[j].hash != Root;
          SuffixContains(entries, k, entries[j].hash);
        }
      }
    }
    if !DropsParent(entries, k) {
      forall i | 0 <= i < |rest| ensures HasParent(rest, rest[i].hash) {
        assert HasParent(entries, entries[k + i].hash);
        var h := rest[i].hash;
        if h.parent != Root {
          forall j | 0 <= j < k ensures entries[j].hash != h.parent {
            assert !IsParent(entries[j], entries[k + i]);
          }
          SuffixContains(entries, k, h.parent);
        }
      }
    }
  }

  /** No key is the empty chain. */
  ghost predicate RootFree(entries: seq<Entry>) {
    forall i :: 0 <= i < |entries| ==> entries[i].hash != Root
  }

  lemma ClosedRootFree(entries: seq<Entry>)
    requires PrefixClosed(entries)
    ensures RootFree(entries)
  {
    forall i | 0 <= i < |entries| ensures entries[i].hash != Root {
      assert HasParent(entries, entries[i].hash);
    }
  }

  /** Making room keeps the entries closed exactly when none of the entries it drops, the oldest ones, is
      the parent of one it keeps. */
  lemma EvictClosedIff(p: P.Pool, entries: seq<Entry>, maxBlocks: nat, others: multiset<Block>)
    requires Cached(p, entries, others) && PrefixClosed(entries)
    ensures Dropped(entries, maxBlocks) <= |entries|
    ensures PrefixClosed(Evict(p, entries, maxBlocks).entries) <==> !DropsParent(entries, Dropped(entries, maxBlocks))
  {
    hide PrefixClosed, DropsParent, P.Exact, Evict;
    EvictCorrect(p, entries, maxBlocks, others);
    ClosedRootFree(entries);
    SuffixClosedIff(entries, Dropped(entries, maxBlocks));
  }

  // ------------------------------------------------------------------------------- registration

  lemma PushClosed(entries: seq<Entry>, e: Entry)
    requires PrefixClosed(entries) && HasParent(entries, e.hash)
    ensures PrefixClosed(entries + [e])
  {
    hide Find;
    var all := entries + [e];
    forall i | 0 <= i < |all| ensures HasParent(all, all[i].hash) {
      assert i < |entries| ==> HasParent(entries, entries[i].hash);
      if all[i].hash.parent != Root {
        StillThere(entries, e, all[i].hash.parent);
      }
    }
  }

  lemma ParentHash(tokens: seq<Token>, bs: nat, i: nat)
    requires bs > 0 && i < |BlockHashes(tokens, bs)|
    ensures var hashes := BlockHashes(tokens, bs);
      hashes[i].Chain? && hashes[i].parent == if i == 0 then Root else hashes[i - 1]
  {
    var hashes := BlockHashes(tokens, bs);
    assert hashes[i] == HashAt(tokens, bs, i + 1);
    assert i > 0 ==> hashes[i - 1] == HashAt(tokens, bs, i);
  }

  /** In closed entries nothing of the prompt is cached past the first block that is not. */
  lemma HitsLead(entries: seq<Entry>, tokens: seq<Token>, bs: nat)
    requires bs > 0 && PrefixClosed(entries)
    ensures var hashes := BlockHashes(tokens, bs);
      forall j :: LeadingHits(entries, hashes) <= j < |hashes| ==> !Contains(entries, hashes[j])
  {
    hide PrefixClosed, Contains;
    var hashes := BlockHashes(tokens, bs);
    var m := LeadingHits(entries, hashes);
    LeadingHitsAre(entries, hashes);
    forall j | m <= j < |hashes| ensures !Contains(entries, hashes[j]) {
      if Contains(entries, hashes[j]) {
        ClosedReaches(entries, tokens, bs, j + 1, m + 1);
      }
    }
  }

  ghost function Window(hashes: seq<Hash>, blocks: seq<Block>, lo: nat, hi: nat): (r: seq<Entry>)
    requires lo <= hi <= |hashes| && hi <= |blocks|
    ensures |r| == hi - lo
    ensures forall j :: 0 <= j < |r| ==> r[j] == Entry(hashes[lo + j], blocks[lo + j])
  {
    seq(hi - lo, j requires 0 <= j < hi - lo => Entry(hashes[lo + j], blocks[lo + j]))
  }

  ghost function Newest(entries: seq<Entry>, n: nat): (r: seq<Entry>)
    ensures |r| == Min(|entries|, n) && r == entries[|entries| - |r|..]
  {
    entries[|entries| - Min(|entries|, n)..]
  }

  lemma NotInWindow(hashes: seq<Hash>, blocks: seq<Block>, lo: nat, hi: nat, i: nat)
    requires lo <= hi <= |hashes| && hi <= |blocks| && i < |hashes| && Distinct(hashes) && !(lo <= i < hi)
    ensures !Contains(Window(hashes, blocks, lo, hi), hashes[i])
  {
    var w := Window(hashes, blocks, lo, hi);
    forall j | 0 <= j < |w| ensures w[j].hash != hashes[i] {
    }
  }

  lemma ContainsJoin(a: seq<Entry>, b: seq<Entry>, h: Hash)
    ensures Contains(a + b, h) <==> Contains(a, h) || Contains(b, h)
  {
    ContainsMember(a, h);
    ContainsMember(b, h);
    ContainsMember(a + b, h);
    if Contains(a, h) {
      var e :| e in a && e.hash == h;
      assert e in a + b;
    }
    if Contains(b, h) {
      var e :| e in b && e.hash == h;
      assert e in a + b;
    }
  }

  /** The loop from block `i` on, when none of those blocks is among `all` there would be had nothing been
      dropped: it appends them, and keeps the newest entries that fit. */
  lemma {:induction false} RegisterGrows(p: P.Pool, all: seq<Entry>, maxBlocks: nat, hashes: seq<Hash>, blocks: seq<Block>, i: nat, others: multiset<Block>)
    requires i <= |hashes| <= |blocks| && Distinct(hashes) && forall j :: i <= j < |hashes| ==> !Contains(all, hashes[j])
    requires Cached(p, Newest(all, maxBlocks), others) && forall b :: b in blocks ==> b in others
    ensures RegisterFrom(p, Newest(all, maxBlocks), maxBlocks, hashes, blocks, i).entries
         == Newest(all + Window(hashes, blocks, i, |hashes|), maxBlocks)
    decreases |hashes| - i
  {
    hide *;
    if i == |hashes| {
      RegisterDone(p, Newest(all, maxBlocks), maxBlocks, hashes, blocks, i);
      WindowDone(all, hashes, blocks);
    } else if maxBlocks > 0 {
      var e := Entry(hashes[i], blocks[i]);
      var next := RegisterOne(p, all, maxBlocks, hashes, blocks, i, others);
      AbsentStill(all, e, hashes, i);
      RegisterGrows(next, all + [e], maxBlocks, hashes, blocks, i + 1, others);
      WindowFront(all, hashes, blocks, i);
    } else {
      RegisterNothing(p, all, hashes, blocks, i, others);
    }
  }

  /** One turn, with room for one entry at least: the block joins what there would be, and the newest that
      fit are kept. */
  lemma RegisterOne(p: P.Pool, all: seq<Entry>, maxBlocks: nat, hashes: seq<Hash>, blocks: seq<Block>, i: nat, others: multiset<Block>)
    returns (next: P.Pool)
    requires i < |hashes| <= |blocks| && !Contains(all, hashes[i]) && maxBlocks > 0
    requires Cached(p, Newest(all, maxBlocks), others) && forall b :: b in blocks ==> b in others
    ensures Cached(next, Newest(all + [Entry(hashes[i], blocks[i])], maxBlocks), others)
    ensures RegisterFrom(p, Newest(all, maxBlocks), maxBlocks, hashes, blocks, i).entries
         == RegisterFrom(next, Newest(all + [Entry(hashes[i], blocks[i])], maxBlocks), maxBlocks, hashes, blocks, i + 1).entries
  {
    hide RegisterFrom, Evict, Cached, Contains, Find, Newest, P.Incref, P.Exact, Refs, Keys, Prefixes.Blocks, Distinct;
    var w, e := Newest(all, maxBlocks), Entry(hashes[i], blocks[i]);
    var ev := Evict(p, w, maxBlocks);
    StillAbsent(all, w, hashes[i]);
    EvictCorrect(p, w, maxBlocks, others);
    RegisterTurn(p, w, maxBlocks, hashes, blocks, i);
    StillAbsent(w, ev.entries, hashes[i]);
    StoreEntry(ev.pool, ev.entries, others, e);
    NewestPush(all, e, maxBlocks, ev.entries);
    next := P.Incref(ev.pool, [blocks[i]]).pool;
  }

  /** A cache that holds nothing stays empty. */
  lemma RegisterNothing(p: P.Pool, all: seq<Entry>, hashes: seq<Hash>, blocks: seq<Block>, i: nat, others: multiset<Block>)
    requires i < |hashes| <= |blocks| && !Contains(all, hashes[i]) && Cached(p, Newest(all, 0), others)
    ensures RegisterFrom(p, Newest(all, 0), 0, hashes, blocks, i).entries == Newest(all + Window(hashes, blocks, i, |hashes|), 0)
  {
    hide RegisterFrom, Evict, Cached, Contains, Find, Window, P.Incref, P.Exact, Refs, Keys, Prefixes.Blocks, Distinct;
    var w := Newest(all, 0);
    StillAbsent(all, w, hashes[i]);
    EvictCorrect(p, w, 0, others);
    RegisterTurn(p, w, 0, hashes, blocks, i);
  }

  lemma WindowDone(all: seq<Entry>, hashes: seq<Hash>, blocks: seq<Block>)
    requires |hashes| <= |blocks|
    ensures all + Window(hashes, blocks, |hashes|, |hashes|) == all
  {
  }

  lemma WindowFront(all: seq<Entry>, hashes: seq<Hash>, blocks: seq<Block>, i: nat)
    requires i < |hashes| <= |blocks|
    ensures all + [Entry(hashes[i], blocks[i])] + Window(hashes, blocks, i + 1, |hashes|) == all + Window(hashes, blocks, i, |hashes|)
  {
    assert Window(hashes, blocks, i, |hashes|) == [Entry(hashes[i], blocks[i])] + Window(hashes, blocks, i + 1, |hashes|);
  }

  lemma AbsentStill(all: seq<Entry>, e: Entry, hashes: seq<Hash>, i: nat)
    requires i < |hashes| && Distinct(hashes) && e.hash == hashes[i] && forall j :: i <= j < |hashes| ==> !Contains(all, hashes[j])
    ensures forall j :: i + 1 <= j < |hashes| ==> !Contains(all + [e], hashes[j])
  {
    hide Contains;
    forall j | i + 1 <= j < |hashes| ensures !Contains(all + [e], hashes[j]) {
      StillThere(all, e, hashes[j]);
    }
  }

  lemma RegisterDone(p: P.Pool, entries: seq<Entry>, maxBlocks: nat, hashes: seq<Hash>, blocks: seq<Block>, i: nat)
    requires i >= |hashes|
    ensures RegisterFrom(p, entries, maxBlocks, hashes, blocks, i).entries == entries
  {
  }

  /** One turn of the loop, at a block that is not cached. */
  lemma RegisterTurn(p: P.Pool, entries: seq<Entry>, maxBlocks: nat, hashes: seq<Hash>, blocks: seq<Block>, i: nat)
    requires i < |hashes| <= |blocks| && !Contains(entries, hashes[i])
    ensures var ev, left := Evict(p, entries, maxBlocks), RegisterFrom(p, entries, maxBlocks, hashes, blocks, i).entries;
      ev.result.Ok? ==>
        && (|ev.entries| >= maxBlocks ==> left == ev.entries)
        && (|ev.entries| < maxBlocks && P.Incref(ev.pool, [blocks[i]]).result.Ok? ==>
              left == RegisterFrom(P.Incref(ev.pool, [blocks[i]]).pool, ev.entries + [Entry(hashes[i], blocks[i])], maxBlocks, hashes, blocks, i + 1).entries)
  {
    hide Evict, P.Incref, Contains;
  }

  lemma NewestPush(all: seq<Entry>, e: Entry, n: nat, kept: seq<Entry>)
    requires n > 0
    requires var w := Newest(all, n);
      && |kept| == (if |w| < n then |w| else n - 1) && kept == w[|w| - |kept|..]
    ensures kept + [e] == Newest(all + [e], n)
  {
  }

  lemma {:induction false} SkipHits(p: P.Pool, entries: seq<Entry>, maxBlocks: nat, hashes: seq<Hash>, blocks: seq<Block>, i: nat, m: nat)
    requires i <= m <= |hashes| && forall j :: i <= j < m ==> Contains(entries, hashes[j])
    ensures RegisterFrom(p, entries, maxBlocks, hashes, blocks, i) == RegisterFrom(p, entries, maxBlocks, hashes, blocks, m)
    decreases m - i
  {
    hide Contains, Evict, P.Incref;
    if i < m {
      SkipHits(p, entries, maxBlocks, hashes, blocks, i + 1, m);
    }
  }

  lemma HashesDistinct(tokens: seq<Token>, bs: nat)
    requires bs > 0
    ensures Distinct(BlockHashes(tokens, bs))
  {
    var hashes := BlockHashes(tokens, bs);
    forall i, j | 0 <= i < j < |hashes| ensures hashes[i] != hashes[j] {
      HashIsPrefix(tokens, i + 1, tokens, j + 1, bs);
    }
  }

  /** What a registration would leave if nothing were ever dropped: the entries, then every block of the
      prompt past those that are cached. */
  ghost function Grown(entries: seq<Entry>, hashes: seq<Hash>, blocks: seq<Block>): seq<Entry>
    requires |hashes| <= |blocks|
  {
    entries + Window(hashes, blocks, LeadingHits(entries, hashes), |hashes|)
  }

  lemma {:induction false} GrownClosed(entries: seq<Entry>, tokens: seq<Token>, bs: nat, blocks: seq<Block>, m: nat, i: nat)
    requires bs > 0 && PrefixClosed(entries) && m <= i <= |BlockHashes(tokens, bs)| <= |blocks|
    requires m > 0 ==> Contains(entries, BlockHashes(tokens, bs)[m - 1])
    ensures PrefixClosed(entries + Window(BlockHashes(tokens, bs), blocks, m, i))
    decreases i
  {
    hide PrefixClosed, Contains, BlockHashes;
    var hashes := BlockHashes(tokens, bs);
    if i == m {
      assert entries + Window(hashes, blocks, m, i) == entries;
    } else {
      GrownClosed(entries, tokens, bs, blocks, m, i - 1);
      var all, e := entries + Window(hashes, blocks, m, i - 1), Entry(hashes[i - 1], blocks[i - 1]);
      assert entries + Window(hashes, blocks, m, i) == all + [e];
      ParentHash(tokens, bs, i - 1);
      if i - 1 > m {
        ContainsAt(all, |all| - 1, hashes[i - 2]);
      } else if m > 0 {
        ContainsJoin(entries, Window(hashes, blocks, m, i - 1), hashes[m - 1]);
      }
      assert HasParent(all, e.hash);
      PushClosed(all, e);
    }
  }

  lemma GrownDistinct(entries: seq<Entry>, hashes: seq<Hash>, blocks: seq<Block>, m: nat)
    requires m <= |hashes| <= |blocks| && Distinct(Keys(entries)) && Distinct(hashes)
    requires forall j :: m <= j < |hashes| ==> !Contains(entries, hashes[j])
    ensures Distinct(Keys(entries + Window(hashes, blocks, m, |hashes|)))
  {
    hide Find, Contains;
    var w := Window(hashes, blocks, m, |hashes|);
    var all := entries + w;
    forall i, j | 0 <= i < j < |all| ensures Keys(all)[i] != Keys(all)[j] {
      if j < |entries| {
        assert Keys(entries)[i] != Keys(entries)[j];
      } else if i < |entries| {
        if entries[i].hash == hashes[m + j - |entries|] {
          ContainsAt(entries, i, entries[i].hash);
        }
      } else {
        assert hashes[m + i - |entries|] != hashes[m + j - |entries|];
      }
    }
  }

  /** Exactly what registering into closed entries leaves, evictions on the way included, and exactly when
      that is closed: when no entry that stays has its parent among those that had to go. */
  lemma RegisterFromClosedIff(p: P.Pool, entries: seq<Entry>, maxBlocks: nat, tokens: seq<Token>, bs: nat, blocks: seq<Block>, others: multiset<Block>)
    requires bs > 0 && |BlockHashes(tokens, bs)| <= |blocks| && Cached(p, entries, others) && |entries| <= maxBlocks
    requires PrefixClosed(entries) && forall b :: b in blocks ==> b in others
    ensures var hashes := BlockHashes(tokens, bs);
      var all, left := Grown(entries, hashes, blocks), RegisterFrom(p, entries, maxBlocks, hashes, blocks, 0).entries;
      && left == Newest(all, maxBlocks)
      && (PrefixClosed(left) <==> !DropsParent(all, |all| - |left|))
  {
    hide RegisterFrom, Cached, Contains, Find, Window, Newest, Grown, LeadingHits, BlockHashes, HashAt, PrefixClosed, DropsParent, RootFree, P.Exact, Refs, Keys, Prefixes.Blocks, Distinct;
    var hashes := BlockHashes(tokens, bs);
    var m := LeadingHits(entries, hashes);
    LeadingHitsAre(entries, hashes);
    HitsLead(entries, tokens, bs);
    HashesDistinct(tokens, bs);
    SkipHits(p, entries, maxBlocks, hashes, blocks, 0, m);
    AllFit(entries, maxBlocks);
    RegisterGrows(p, entries, maxBlocks, hashes, blocks, m, others);
    CachedKeys(p, entries, others);
    GrownClosed(entries, tokens, bs, blocks, m, |hashes|);
    GrownDistinct(entries, hashes, blocks, m);
    GrownIs(entries, hashes, blocks);
    var all := Grown(entries, hashes, blocks);
    ClosedRootFree(all);
    SuffixClosedIff(all, |all| - |Newest(all, maxBlocks)|);
  }

  lemma AllFit(entries: seq<Entry>, n: nat)
    requires |entries| <= n
    ensures Newest(entries, n) == entries
  {
  }

  lemma GrownIs(entries: seq<Entry>, hashes: seq<Hash>, blocks: seq<Block>)
    requires |hashes| <= |blocks|
    ensures Grown(entries, hashes, blocks) == entries + Window(hashes, blocks, LeadingHits(entries, hashes), |hashes|)
  {
  }

  lemma CachedKeys(p: P.Pool, entries: seq<Entry>, others: multiset<Block>)
    requires Cached(p, entries, others)
    ensures Distinct(Keys(entries))
  {
  }

  /** The same for a registration in the arena. */
  lemma RegisterClosedIff(a: Arena, hs: seq<Hist>, id: nat, tokens: seq<Token>, kvOf: Oracle)
    requires Inv(a, hs, kvOf) && Registrable(a, hs, id, tokens, kvOf) && PrefixClosed(a.entries)
    ensures a.store.pool.blockSize > 0
    ensures var hashes, blocks := BlockHashes(tokens, a.store.pool.blockSize), a.caches[id].table.blocks;
      && |hashes| <= |blocks|
      && var all, left := Grown(a.entries, hashes, blocks), Do(a, Register(id, tokens)).arena.entries;
      && left == Newest(all, a.maxBlocks)
      && (PrefixClosed(left) <==> !DropsParent(all, |all| - |left|))
  {
    hide Inv, Cached, AllHeld, HeldBy, CacheInv, RegisterFrom, PrefixClosed, BlockHashes, Grown, Newest, DropsParent;
    InvCached(a, hs, kvOf);
    InvHeld(a, hs, kvOf, id);
    MemberHeld(a, id);
    var bs, blocks := a.store.pool.blockSize, a.caches[id].table.blocks;
    assert forall b :: b in blocks ==> b in HeldBy(a.caches);
    PrefilledCovers(a, hs, id, tokens, kvOf);
    RegisterFromClosedIff(a.store.pool, a.entries, a.maxBlocks, tokens, bs, blocks, HeldBy(a.caches));
  }

  /** With room for all its full blocks, registering a prefill leaves closed entries closed. */
  lemma RegisterKeepsClosed(a: Arena, hs: seq<Hist>, id: nat, tokens: seq<Token>, kvOf: Oracle)
    requires Inv(a, hs, kvOf) && Registrable(a, hs, id, tokens, kvOf) && PrefixClosed(a.entries)
    requires |a.entries| + Div(|tokens|, a.store.pool.blockSize) <= a.maxBlocks
    ensures PrefixClosed(Do(a, Register(id, tokens)).arena.entries)
  {
    hide Inv, PrefixClosed, BlockHashes, Do;
    RegisterClosedIff(a, hs, id, tokens, kvOf);
    var all := Grown(a.entries, BlockHashes(tokens, a.store.pool.blockSize), a.caches[id].table.blocks);
    assert |all| <= a.maxBlocks && !DropsParent(all, 0);
  }

  lemma ReorderClosed(entries: seq<Entry>, entries': seq<Entry>)
    requires forall e :: e in entries' <==> e in entries
    requires PrefixClosed(entries)
    ensures PrefixClosed(entries')
  {
    hide Find;
    forall i | 0 <= i < |entries'| ensures HasParent(entries', entries'[i].hash) {
      assert entries'[i] in entries';
      var k :| 0 <= k < |entries| && entries[k] == entries'[i];
      assert HasParent(entries, entries[k].hash);
      if entries'[i].hash.parent != Root {
        ContainsMember(entries, entries'[i].hash.parent);
        ContainsMember(entries', entries'[i].hash.parent);
      }
    }
  }

  /** Nothing but a registration that evicts can open the entries. */
  lemma OthersKeepClosed(a: Arena, hs: seq<Hist>, op: Op, kvOf: Oracle)
    requires Inv(a, hs, kvOf) && PrefixClosed(a.entries) && !op.Register?
    ensures PrefixClosed(Call(a, op).arena.entries)
  {
    hide Inv, Cached, PrefixClosed, Lookup, Prefixes.Clear, HeldBy, Bag, Paging.Update, EnsureCapacity, FreeTable, ForkTable, BlockHashes, Refs, CacheInv, Contains;
    InvCached(a, hs, kvOf);
    match op
    case Adopt(tokens, firstLayer) =>
      LookupCorrect(a.store.pool, a.entries, HeldBy(a.caches), tokens);
      ReorderClosed(a.entries, Lookup(a.store.pool, a.entries, tokens).entries);
    case Clear =>
      ClearCorrect(a.store.pool, a.entries, HeldBy(a.caches));
      NoneClosed();
    case _ =>
  }

  lemma NoneClosed()
    ensures PrefixClosed([])
  {
  }

  // --------------------------------------------------------------------- when eviction opens them

  /** A prompt with more full blocks than an empty cache may hold pushes out its own first blocks: the last
      ones stay, without their parents, and a lookup of the same prompt finds nothing. */
  lemma TooLongToFind(a: Arena, hs: seq<Hist>, id: nat, tokens: seq<Token>, kvOf: Oracle)
    requires Inv(a, hs, kvOf) && Registrable(a, hs, id, tokens, kvOf)
    requires a.entries == [] && 0 < a.maxBlocks < Div(|tokens|, a.store.pool.blockSize)
    ensures var a1 := Do(a, Register(id, tokens)).arena;
      var hashes := BlockHashes(tokens, a.store.pool.blockSize);
      && a1.store.pool.blockSize == a.store.pool.blockSize && a1.caches == a.caches
      && !PrefixClosed(a1.entries)
      && Contains(a1.entries, hashes[|hashes| - 1]) && !Contains(a1.entries, hashes[0])
      && var c := Do(a1, Adopt(tokens, 0)).arena.caches;
      && |c| == |a.caches| + 1 && c[|a.caches|].table.blocks == []
  {
    hide Inv, Contains, BlockHashes, Boundary, HistIs, PrefixClosed, Do, DropsParent, Grown, Newest, Window;
    NoneClosed();
    RegisterClosedIff(a, hs, id, tokens, kvOf);
    RegisterStep(a, hs, id, tokens, kvOf);
    var bs, blocks := a.store.pool.blockSize, a.caches[id].table.blocks;
    var hashes := BlockHashes(tokens, bs);
    var a1 := Do(a, Register(id, tokens)).arena;
    RegisterOnly(a, id, tokens);
    OverflowLeaves(hashes, blocks, a.maxBlocks);
    WindowOpen(tokens, bs, blocks, |hashes| - a.maxBlocks);
    AdoptsLongestPrefix(a1, hs, tokens, 0, kvOf);
  }

  lemma OverflowLeaves(hashes: seq<Hash>, blocks: seq<Block>, maxBlocks: nat)
    requires maxBlocks <= |hashes| <= |blocks|
    ensures Newest(Grown([], hashes, blocks), maxBlocks) == Window(hashes, blocks, |hashes| - maxBlocks, |hashes|)
  {
    hide LeadingHits, Contains;
    NoHits(hashes);
    var all := Window(hashes, blocks, 0, |hashes|);
    assert Grown([], hashes, blocks) == all;
    assert all[|hashes| - maxBlocks..] == Window(hashes, blocks, |hashes| - maxBlocks, |hashes|);
  }

  lemma NoHits(hashes: seq<Hash>)
    ensures LeadingHits([], hashes) == 0
  {
  }

  lemma RegisterOnly(a: Arena, id: nat, tokens: seq<Token>)
    requires a.store.pool.blockSize > 0 && id < |a.caches|
    ensures var a1 := Do(a, Register(id, tokens)).arena;
      a1.caches == a.caches && a1.store.pool.blockSize == a.store.pool.blockSize
  {
    hide RegisterFrom;
    RegisterShape(a.store.pool, a.entries, a.maxBlocks, BlockHashes(tokens, a.store.pool.blockSize), a.caches[id].table.blocks, 0);
  }

  lemma WindowOpen(tokens: seq<Token>, bs: nat, blocks: seq<Block>, lo: nat)
    requires bs > 0 && 0 < lo < |BlockHashes(tokens, bs)| <= |blocks|
    ensures var hashes := BlockHashes(tokens, bs);
      var w := Window(hashes, blocks, lo, |hashes|);
      !PrefixClosed(w) && !Contains(w, hashes[0]) && Contains(w, hashes[|hashes| - 1])
  {
    hide Find, Contains;
    var hashes := BlockHashes(tokens, bs);
    var w := Window(hashes, blocks, lo, |hashes|);
    HashesDistinct(tokens, bs);
    NotInWindow(hashes, blocks, lo, |hashes|, 0);
    NotInWindow(hashes, blocks, lo, |hashes|, lo - 1);
    ContainsAt(w, |w| - 1, hashes[|hashes| - 1]);
    assert w[0].hash == hashes[lo] && hashes[lo].parent == hashes[lo - 1] != Root;
    assert !HasParent(w, w[0].hash);
  }

  /** And such a registration is reached, for any number of layers, any block size and every prompt with
      more full blocks than the cache may hold, by creating a sequence, prefilling it and registering it. */
  lemma ParentDropped(s: Shape, first: nat, tokens: seq<Token>, zero: KV, kvOf: Oracle) returns (a: Arena)
    requires s.layers > 0 && s.blockSize > 0 && CeilDiv(|tokens|, s.blockSize) <= s.numBlocks
    requires 0 < s.maxBlocks < Div(|tokens|, s.blockSize)
    ensures var n, xss := |tokens|, PrefixHist(kvOf, s.layers, tokens, |tokens|);
      && Reaches(Empty(s, zero), [], Prefill(first, xss), a, [Owner(first, n, n, xss)], kvOf)
      && Enabled(s.layers, [Owner(first, n, n, xss)], Register(0, tokens), kvOf)
    ensures !PrefixClosed(Call(a, Register(0, tokens)).arena.entries)
  {
    hide Inv, PrefixKV, PrefixClosed, Do, Reaches, BlockHashes, Contains, CeilDiv, Empty, Prefill, Sole;
    var xss := PrefixHist(kvOf, s.layers, tokens, |tokens|);
    a := Prefilled(s, zero, first, xss, |tokens|, kvOf);
    forall l | 0 <= l < |xss| ensures xss[l][..|tokens|] == xss[l] {
    }
    TooLongToFind(a, [xss], 0, tokens, kvOf);
  }
}
