/** Paged storage with copy-on-write keeps one private history per sequence.

    Every lemma is about one sequence's cache in an arena where `others` is whatever references
    anybody else holds: other sequences' tables, prefix-cache entries, anything. */
module PagingProofs {
  import opened Common
  import opened Tensors
  import opened Paging
  import opened WriteCosts
  import P = Pools

  /** The arena and one cache in it, with exact counts for that cache and everybody else. */
  ghost predicate Held(s: Store, c: Cache, others: multiset<Block>) {
    Shaped(s) && P.Exact(s.pool, multiset(c.table.blocks) + others)
  }

  lemma HeldInRange(s: Store, c: Cache, others: multiset<Block>)
    requires Held(s, c, others)
    ensures forall b :: b in c.table.blocks ==> P.InRange(s.pool, b)
    ensures forall l :: 0 <= l < |s.kv| ==> |Flat(s.kv[l], c.table.blocks)| == |c.table.blocks| * s.pool.blockSize
  {
    forall b | b in c.table.blocks ensures P.InRange(s.pool, b) {
      assert b in multiset(c.table.blocks) + others;
    }
    forall l | 0 <= l < |s.kv|
      ensures |Flat(s.kv[l], c.table.blocks)| == |c.table.blocks| * s.pool.blockSize
    {
      FlatLength(s, l, c.table.blocks);
    }
  }

  /** One sequence's move, as everybody else sees it: counts are exact again, no block they refer to
      changed in any layer, and the mover did not pick up a reference to any of them. */
  ghost predicate Isolated(s: Store, c: Cache, s': Store, c': Cache, others: multiset<Block>) {
    && Held(s', c', others)
    && SameOn(s.kv, s'.kv, others)
    && NoGrab(c.table.blocks, c'.table.blocks, others)
    && c'.firstLayer == c.firstLayer
    && s'.pool.blockSize == s.pool.blockSize && |s'.pool.refcount| == |s.pool.refcount|
  }

  ghost predicate NoGrab(blocks: seq<Block>, blocks': seq<Block>, others: multiset<Block>) {
    forall b :: b in others ==> multiset(blocks')[b] <= multiset(blocks)[b]
  }

  lemma IsolatedRefl(s: Store, c: Cache, others: multiset<Block>)
    requires Held(s, c, others)
    ensures forall pending :: Isolated(s, c, s, c.(pending := pending), others)
    ensures Isolated(s, c, s, c, others)
  {
  }

  /** The pending count is no part of what others can see. */
  lemma SetPending(s: Store, c: Cache, s': Store, c': Cache, others: multiset<Block>, n: nat, h: Hist)
    requires Isolated(s, c, s', c', others) && Rep(s', c', h)
    ensures var c1 := c'.(pending := n);
      Isolated(s, c, s', c1, others) && Held(s', c1, others) && Rep(s', c1, h) && s'.pool.blockSize > 0
  {
    hide SameOn, NoGrab, Flat, P.Exact;
  }

  lemma IsolatedTrans(s: Store, c: Cache, s1: Store, c1: Cache, s2: Store, c2: Cache, others: multiset<Block>)
    requires Isolated(s, c, s1, c1, others) && Isolated(s1, c1, s2, c2, others)
    ensures Isolated(s, c, s2, c2, others)
  {
    hide Held;
  }

  // ---------------------------------------------------------------------------------- growing

  /** Growing a table keeps the counts exact and every history; it fails exactly when the pool has
      fewer free blocks than are missing, and then changes nothing. */
  lemma EnsureCorrect(s: Store, c: Cache, others: multiset<Block>, n: nat, h: Hist)
    requires Held(s, c, others) && Rep(s, c, h)
    ensures var o := EnsureCapacity(s.pool, c.table, n);
      var s' := s.(pool := o.pool);
      var c' := c.(table := o.table);
      && Isolated(s, c, s', c', others) && Rep(s', c', h)
      && o.table.numTokens == c.table.numTokens
      && (o.result.Ok? <==> CeilDiv(n, s.pool.blockSize) <= |c.table.blocks| + |s.pool.free|)
      && (o.result.Err? ==> o.pool == s.pool && o.table == c.table && o.result.error == OutOfBlocks)
      && (o.result.Ok? ==>
            && |o.table.blocks| == Max(|c.table.blocks|, CeilDiv(n, s.pool.blockSize))
            && n <= |o.table.blocks| * s.pool.blockSize
            && o.table.blocks == c.table.blocks + o.result.value
            && (forall b :: b in c.table.blocks ==> multiset(o.table.blocks)[b] == multiset(c.table.blocks)[b])
            && |o.pool.free| + |o.table.blocks| == |s.pool.free| + |c.table.blocks|)
      && (Unshared(multiset(c.table.blocks) + others) ==> Unshared(multiset(o.table.blocks) + others))
  {
    hide Rep, Isolated, SameOn, NoGrab, Unshared, P.Allocate;
    var bs := s.pool.blockSize;
    var needed := CeilDiv(n, bs);
    var o := EnsureCapacity(s.pool, c.table, n);
    IsolatedRefl(s, c, others);
    CeilDivAdjunction(n, bs, |o.table.blocks|);
    if needed > |c.table.blocks| {
      P.AllocateExact(s.pool, multiset(c.table.blocks) + others, needed - |c.table.blocks|);
      if o.result.Ok? {
        ExtendCorrect(s, c, others, o.result.value, o.pool, h);
      }
    }
  }

  /** Appending blocks nobody held to a table. */
  lemma ExtendCorrect(s: Store, c: Cache, others: multiset<Block>, taken: seq<Block>, pool: P.Pool, h: Hist)
    requires Held(s, c, others) && Rep(s, c, h)
    requires Distinct(taken) && forall b :: b in taken ==> b !in multiset(c.table.blocks) + others
    requires P.Exact(pool, multiset(c.table.blocks) + others + multiset(taken))
    requires |pool.refcount| == |s.pool.refcount| && pool.blockSize == s.pool.blockSize
    ensures var c' := c.(table := c.table.(blocks := c.table.blocks + taken));
      && Isolated(s, c, s.(pool := pool), c', others) && Rep(s.(pool := pool), c', h)
      && (forall b :: b in c.table.blocks ==> multiset(c'.table.blocks)[b] == multiset(c.table.blocks)[b])
      && (Unshared(multiset(c.table.blocks) + others) ==> Unshared(multiset(c'.table.blocks) + others))
  {
    hide Flat, P.Exact;
    var held := multiset(c.table.blocks) + others;
    var blocks := c.table.blocks + taken;
    assert multiset(blocks) + others == held + multiset(taken);
    forall l | 0 <= l < |h| ensures h[l] <= Flat(s.kv[l], blocks) {
      FlatAppend(s.kv[l], c.table.blocks, taken);
    }
    MulLe(|c.table.blocks|, |blocks|, s.pool.blockSize);
    forall b ensures multiset(taken)[b] == (if b in taken then 1 else 0) {
      DistinctCount(taken, b);
    }
    assert forall b :: b in others || b in c.table.blocks ==> b in held;
  }

  ghost predicate Unshared(held: multiset<Block>) {
    forall b :: held[b] <= 1
  }

  lemma AppendCorrect(s: Store, c: Cache, others: multiset<Block>, n: nat, h: Hist)
    requires s.pool.blockSize > 0 && Held(s, c, others) && Rep(s, c, h)
    ensures var o := Append(s.pool, c.table, n);
      var s' := s.(pool := o.pool);
      var c' := c.(table := o.table);
      && Isolated(s, c, s', c', others) && Rep(s', c', h)
      && (o.result.Err? ==> s' == s && c' == c && o.result.error == OutOfBlocks)
      && (o.result.Ok? ==> o.table == Table(c.table.blocks + o.result.value, c.table.numTokens + n))
      && (o.result.Ok? <==> CeilDiv(c.table.numTokens + n, s.pool.blockSize) <= |c.table.blocks| + |s.pool.free|)
      && (CeilDiv(c.table.numTokens + n, s.pool.blockSize) <= |c.table.blocks| ==>
            o.pool == s.pool && o.table.blocks == c.table.blocks)
  {
    hide Held, Isolated, Rep, P.Allocate, CeilDiv;
    EnsureCorrect(s, c, others, c.table.numTokens + n, h);
    var o := Append(s.pool, c.table, n);
    if o.result.Ok? {
      var grown := EnsureCapacity(s.pool, c.table, c.table.numTokens + n);
      IsolatedShape(s, c, s.(pool := o.pool), c.(table := grown.table), others);
      SetTokens(s, c, s.(pool := o.pool), c.(table := grown.table), others, c.table.numTokens + n, h);
    }
  }

  lemma SetTokens(s: Store, c: Cache, s': Store, c': Cache, others: multiset<Block>, n: nat, h: Hist)
    requires Isolated(s, c, s', c', others) && Rep(s', c', h)
    requires c'.table.numTokens <= n <= |c'.table.blocks| * s'.pool.blockSize
    ensures var c1 := c'.(table := c'.table.(numTokens := n));
      Isolated(s, c, s', c1, others) && Rep(s', c1, h)
  {
    hide SameOn, NoGrab, Flat, P.Exact;
  }

  // ---------------------------------------------------------------------------- copy on write

  /** Splitting one logical block: the sequence reads the same contents through its new table, and
      no block that others refer to changes. */
  lemma UnshareCorrect(s: Store, c: Cache, others: multiset<Block>, k: nat, h: Hist)
    requires Held(s, c, others) && Rep(s, c, h) && k < |c.table.blocks|
    ensures var held := multiset(c.table.blocks) + others;
      var o := Unshare(s.pool, c.table, k);
      && (o.result.Err? <==> held[c.table.blocks[k]] > 1 && s.pool.free == [])
      && (o.result.Err? ==> o == TableOut(s.pool, c.table, Err(OutOfBlocks)))
      && (held[c.table.blocks[k]] == 1 ==> o == TableOut(s.pool, c.table, Ok(None)))
      && (o.result.Ok? ==>
            var kv' := if o.result.value.Some? then CopyBlock(s.kv, o.result.value.value.0, o.result.value.value.1) else s.kv;
            var s' := Store(o.pool, kv');
            var c' := c.(table := o.table);
            && Isolated(s, c, s', c', others) && Rep(s', c', h)
            && |o.table.blocks| == |c.table.blocks| && o.table.numTokens == c.table.numTokens
            && (multiset(o.table.blocks) + others)[o.table.blocks[k]] == 1
            && (forall j :: 0 <= j < |c.table.blocks| && held[c.table.blocks[j]] == 1 ==>
                  o.table.blocks[j] == c.table.blocks[j] && (multiset(o.table.blocks) + others)[o.table.blocks[j]] == 1))
  {
    hide CopyBlock, P.Exact, P.CopyOnWrite, Row, Flat;
    var blocks := c.table.blocks;
    var held := multiset(blocks) + others;
    var b := blocks[k];
    assert b in multiset(blocks);
    P.CopyOnWriteExact(s.pool, held, b);
    var o := Unshare(s.pool, c.table, k);
    if held[b] > 1 && o.result.Ok? {
      var new_ := o.table.blocks[k];
      assert new_ !in held;
      UpdateMultiset(blocks, k, new_);
      assert multiset(o.table.blocks) + others == held - multiset{b} + multiset{new_};
      SplitKeepsRows(s, c, others, k, new_, h);
      forall j | 0 <= j < |blocks| && held[blocks[j]] == 1
        ensures o.table.blocks[j] == blocks[j] && (multiset(o.table.blocks) + others)[o.table.blocks[j]] == 1
      {
        assert blocks[j] != b && blocks[j] != new_;
      }
    }
  }

  /** The content copy is what makes the split invisible. */
  lemma SplitKeepsRows(s: Store, c: Cache, others: multiset<Block>, k: nat, new_: Block, h: Hist)
    requires Held(s, c, others) && Rep(s, c, h) && k < |c.table.blocks|
    requires P.InRange(s.pool, new_) && new_ !in multiset(c.table.blocks) + others
    ensures var kv' := CopyBlock(s.kv, c.table.blocks[k], new_);
      var c' := c.(table := c.table.(blocks := c.table.blocks[k := new_]));
      && Shaped(s.(kv := kv')) && Rep(s.(kv := kv'), c', h) && SameOn(s.kv, kv', others)
  {
    var blocks := c.table.blocks;
    var kv' := CopyBlock(s.kv, blocks[k], new_);
    HeldInRange(s, c, others);
    assert blocks[k] in blocks;
    forall l | 0 <= l < |h| ensures Flat(kv'[l], blocks[k := new_]) == Flat(s.kv[l], blocks) {
      forall j | 0 <= j < |blocks| ensures Row(kv'[l], blocks[k := new_][j]) == Row(s.kv[l], blocks[j]) {
        assert blocks[j] in multiset(blocks);
      }
      assert Rows(kv'[l], blocks[k := new_]) == Rows(s.kv[l], blocks);
    }
  }

  lemma {:induction false} UnshareRangeCorrect(s: Store, c: Cache, others: multiset<Block>, first: nat, k: nat, last: int, h: Hist)
    requires Held(s, c, others) && Rep(s, c, h)
    requires first <= k && last < |c.table.blocks|
    requires forall j :: first <= j < k && j < |c.table.blocks| ==> (multiset(c.table.blocks) + others)[c.table.blocks[j]] == 1
    ensures var o := UnshareRange(s, c, k, last);
      && Isolated(s, c, o.store, o.cache, others) && Rep(o.store, o.cache, h)
      && o.cache == c.(table := o.cache.table) && o.cache.table.numTokens == c.table.numTokens
      && |o.cache.table.blocks| == |c.table.blocks|
      && (o.result.Err? ==> o.result.error == OutOfBlocks)
      && (o.result.Ok? ==> forall j :: first <= j <= last ==>
            (multiset(o.cache.table.blocks) + others)[o.cache.table.blocks[j]] == 1)
    decreases last + 1 - k
  {
    hide Held, Rep, SameOn, NoGrab, P.CopyOnWrite, CopyBlock;
    if k > last {
      IsolatedRefl(s, c, others);
    } else {
      UnshareCorrect(s, c, others, k, h);
      var o := Unshare(s.pool, c.table, k);
      if o.result.Ok? {
        var kv' := if o.result.value.Some? then CopyBlock(s.kv, o.result.value.value.0, o.result.value.value.1) else s.kv;
        var s' := Store(o.pool, kv');
        var c' := c.(table := o.table);
        UnshareRangeCorrect(s', c', others, first, k + 1, last, h);
        var rest := UnshareRange(s', c', k + 1, last);
        IsolatedTrans(s, c, s', c', rest.store, rest.cache, others);
      } else {
        IsolatedRefl(s, c, others);
      }
    }
  }

  lemma HeldOnce(mine: multiset<Block>, others: multiset<Block>, b: Block)
    requires Unshared(mine + others) && b in mine
    ensures (mine + others)[b] == 1
  {
  }

  /** On a table whose blocks nobody else refers to there is nothing to split. */
  lemma {:induction false} UnshareRangeIdle(s: Store, c: Cache, others: multiset<Block>, k: nat, last: int, h: Hist)
    requires Held(s, c, others) && Rep(s, c, h) && last < |c.table.blocks|
    requires Unshared(multiset(c.table.blocks) + others)
    ensures UnshareRange(s, c, k, last) == Out(s, c, Ok(()))
    decreases last + 1 - k
  {
    hide Held, Rep, Isolated, Unshare, CopyBlock;
    if k <= last {
      HeldOnce(multiset(c.table.blocks), others, c.table.blocks[k]);
      UnshareCorrect(s, c, others, k, h);
      assert Unshare(s.pool, c.table, k) == TableOut(s.pool, c.table, Ok(None));
      UnshareRangeIdle(s, c, others, k + 1, last, h);
    }
  }

  lemma WriteRange(start: nat, n: nat, bs: nat, nblocks: nat)
    requires bs > 0 && start + n <= nblocks * bs
    ensures 0 <= start / bs && (start + n - 1) / bs < nblocks
  {
    DivBounds(start, bs);
    DivBounds(start + n - 1, bs);
    if (start + n - 1) / bs >= nblocks {
      MulLe(nblocks, (start + n - 1) / bs, bs);
    }
  }

  lemma RepCapacity(s: Store, c: Cache, h: Hist)
    requires Rep(s, c, h)
    ensures c.table.numTokens <= |c.table.blocks| * s.pool.blockSize
  {
  }

  /** Splitting whatever is shared in the write range makes the range private. */
  lemma SplitWriteRange(s: Store, c: Cache, others: multiset<Block>, start: nat, n: nat, h: Hist)
    requires Held(s, c, others) && Rep(s, c, h)
    requires start + n == c.table.numTokens && c.table.blocks != []
    ensures var o := UnshareRange(s, c, Div(start, s.pool.blockSize), Div(start + n - 1, s.pool.blockSize));
      && Isolated(s, c, o.store, o.cache, others) && Rep(o.store, o.cache, h)
      && o.cache == c.(table := o.cache.table) && o.cache.table.numTokens == c.table.numTokens
      && (o.result.Err? ==> o.result.error == OutOfBlocks)
      && (o.result.Ok? ==> Private(s.pool.blockSize, o.cache, others, start, n))
  {
    var bs := s.pool.blockSize;
    RepCapacity(s, c, h);
    WriteRange(start, n, bs, |c.table.blocks|);
    UnshareRangeCorrect(s, c, others, start / bs, start / bs, (start + n - 1) / bs, h);
    hide Isolated, Rep, UnshareRange;
  }

  /** The once-per-forward bookkeeping keeps every history and every other holder's blocks, whether
      or not it runs out of blocks half way; when it succeeds, the write range is private. */
  lemma BeginCorrect(s: Store, c: Cache, others: multiset<Block>, n: nat, h: Hist)
    requires s.pool.blockSize > 0 && Held(s, c, others) && Rep(s, c, h)
    ensures var o := Begin(s, c, n);
      && Isolated(s, c, o.store, o.cache, others) && Rep(o.store, o.cache, h)
      && o.cache.pending == n
      && c.table.numTokens <= o.cache.table.numTokens <= c.table.numTokens + n
      && (o.result.Err? ==> o.result.error == OutOfBlocks)
      && (o.result.Ok? ==>
            && o.cache.table.numTokens == c.table.numTokens + n
            && Private(s.pool.blockSize, o.cache, others, c.table.numTokens, n))
  {
    hide Isolated, Held, Rep, Private, Append, UnshareRange;
    AppendCorrect(s, c, others, n, h);
    var o := Append(s.pool, c.table, n);
    var s1 := s.(pool := o.pool);
    var c1 := c.(pending := n, table := o.table);
    SetPending(s, c, s1, c.(table := o.table), others, n, h);
    IsolatedShape(s, c, s1, c1, others);
    if o.result.Ok? {
      if c1.table.blocks == [] {
        EmptyRangePrivate(s1, c1, others, c.table.numTokens, n, h);
      } else {
        SplitWriteRange(s1, c1, others, c.table.numTokens, n, h);
        var r := Begin(s, c, n);
        IsolatedTrans(s, c, s1, c1, r.store, r.cache, others);
      }
    }
  }

  lemma EmptyRangePrivate(s: Store, c: Cache, others: multiset<Block>, start: nat, n: nat, h: Hist)
    requires Held(s, c, others) && Rep(s, c, h)
    requires start + n == c.table.numTokens && c.table.blocks == []
    ensures Private(s.pool.blockSize, c, others, start, n)
  {
    RepCapacity(s, c, h);
    WriteRange(start, n, s.pool.blockSize, 0);
  }

  // ------------------------------------------------------------------------------- the write

  /** Writing one position of a block the writer alone refers to: its joined blocks change at that
      position and nowhere else, and no other holder's block changes at all. */
  lemma PutCorrect(s: Store, l: nat, c: Cache, others: multiset<Block>, pos: nat, x: KV)
    requires Held(s, c, others) && l < |s.kv|
    requires pos < |c.table.blocks| * s.pool.blockSize
    requires var k := pos / s.pool.blockSize;
      0 <= k < |c.table.blocks| && (multiset(c.table.blocks) + others)[c.table.blocks[k]] == 1
    ensures var layer' := Put(s.kv[l], c.table.blocks, s.pool.blockSize, pos, x);
      && ShapedLayer(layer', |s.pool.refcount|, s.pool.blockSize)
      && pos < |Flat(s.kv[l], c.table.blocks)|
      && Flat(layer', c.table.blocks) == Flat(s.kv[l], c.table.blocks)[pos := x]
      && forall b :: b in others ==> Row(layer', b) == Row(s.kv[l], b)
  {
    var bs, blocks, layer := s.pool.blockSize, c.table.blocks, s.kv[l];
    var k, slot := pos / bs, pos % bs;
    DivBounds(pos, bs);
    HeldInRange(s, c, others);
    assert blocks[k] in blocks;
    var layer' := Put(layer, blocks, bs, pos, x);
    var rows := Rows(layer, blocks);
    forall j | 0 <= j < |blocks| && j != k ensures blocks[j] != blocks[k] {
      if blocks[j] == blocks[k] {
        TwoOccurrences(blocks, if j < k then j else k, if j < k then k else j);
      }
    }
    forall j | 0 <= j < |rows| ensures |rows[j]| == bs {
      assert blocks[j] in blocks;
    }
    assert Rows(layer', blocks) == rows[k := rows[k][slot := x]];
    ConcatUpdate(rows, bs, k, slot, x);
    forall b | b in others ensures Row(layer', b) == Row(layer, b) {
      assert blocks[k] in multiset(blocks);
      assert b != blocks[k];
    }
  }

  /** The scatter of `_write`: the joined blocks get `xs` at `[start, start+|xs|)`. */
  lemma {:induction false} WriteCorrect(s: Store, l: nat, c: Cache, others: multiset<Block>, start: nat, xs: seq<KV>)
    requires Held(s, c, others) && l < |s.kv|
    requires start + |xs| <= |c.table.blocks| * s.pool.blockSize
    requires Private(s.pool.blockSize, c, others, start, |xs|)
    ensures var layer' := Write(s.kv[l], c.table.blocks, s.pool.blockSize, start, xs);
      var flat := Flat(s.kv[l], c.table.blocks);
      && ShapedLayer(layer', |s.pool.refcount|, s.pool.blockSize)
      && start + |xs| <= |flat|
      && Flat(layer', c.table.blocks) == flat[..start] + xs + flat[start + |xs|..]
      && forall b :: b in others ==> Row(layer', b) == Row(s.kv[l], b)
    decreases |xs|
  {
    hide Flat, P.Exact, Put;
    var bs, blocks, layer := s.pool.blockSize, c.table.blocks, s.kv[l];
    var flat := Flat(layer, blocks);
    HeldInRange(s, c, others);
    if xs != [] {
      DivMono(start, start + |xs| - 1, bs);
      assert Alone(c, others, start / bs);
      PutCorrect(s, l, c, others, start, xs[0]);
      var layer1 := Put(layer, blocks, bs, start, xs[0]);
      var s1 := s.(kv := s.kv[l := layer1]);
      assert Held(s1, c, others);
      DivMono(start, start + 1, bs);
      assert start + 1 + |xs[1..]| - 1 == start + |xs| - 1;
      WriteCorrect(s1, l, c, others, start + 1, xs[1..]);
      var flat1 := Flat(layer1, blocks);
      assert flat1[..start + 1] == flat[..start] + [xs[0]];
      assert flat1[start + |xs|..] == flat[start + |xs|..];
      assert flat[..start] + xs == flat[..start] + [xs[0]] + xs[1..];
    }
  }

  lemma DivMono(a: int, b: int, d: int)
    requires d > 0 && a <= b
    ensures a / d <= b / d
  {
    DivBounds(a, d);
    DivBounds(b, d);
    if a / d > b / d {
      MulLe(b / d + 1, a / d, d);
    }
  }

  // ------------------------------------------------------------------------------- the update

  /** Writing a layer once the bookkeeping is done: this layer's history grows by `xs`, the other
      layers' histories stay, and the history is what `gather` returns. */
  lemma LayerCorrect(s: Store, c: Cache, others: multiset<Block>, l: nat, xs: seq<KV>, h: Hist)
    requires |h| == |s.kv| && s.pool.blockSize > 0
    requires Held(s, c, others) && Rep(s, c, h) && l < |s.kv|
    requires |h[l]| + |xs| == c.table.numTokens
    requires Private(s.pool.blockSize, c, others, |h[l]|, |xs|)
    ensures var written := Write(s.kv[l], c.table.blocks, s.pool.blockSize, |h[l]|, xs);
      var s' := s.(kv := s.kv[l := written]);
      && Isolated(s, c, s', c, others)
      && Rep(s', c, h[l := h[l] + xs])
      && Gather(written, c.table) == h[l] + xs
  {
    hide Isolated, Held, Rep, Private, Gather, Flat, Write;
    RepCapacity(s, c, h);
    WriteCorrect(s, l, c, others, |h[l]|, xs);
    var written := Write(s.kv[l], c.table.blocks, s.pool.blockSize, |h[l]|, xs);
    ReplaceLayer(s, c, others, l, written);
    ReplaceLayerRep(s, c, l, written, xs, h);
  }

  lemma ReplaceLayer(s: Store, c: Cache, others: multiset<Block>, l: nat, written: Layer)
    requires Held(s, c, others) && l < |s.kv|
    requires ShapedLayer(written, |s.pool.refcount|, s.pool.blockSize)
    requires forall b :: b in others ==> Row(written, b) == Row(s.kv[l], b)
    ensures Isolated(s, c, s.(kv := s.kv[l := written]), c, others)
  {
    hide P.Exact, ShapedLayer, Row;
  }

  lemma ReplaceLayerRep(s: Store, c: Cache, l: nat, written: Layer, xs: seq<KV>, h: Hist)
    requires Rep(s, c, h) && l < |h| && |h[l]| + |xs| == c.table.numTokens
    requires var flat := Flat(s.kv[l], c.table.blocks);
      c.table.numTokens <= |flat| && Flat(written, c.table.blocks) == flat[..|h[l]|] + xs + flat[|h[l]| + |xs|..]
    ensures Rep(s.(kv := s.kv[l := written]), c, h[l := h[l] + xs])
    ensures Gather(written, c.table) == h[l] + xs
  {
    hide Flat;
    var flat := Flat(s.kv[l], c.table.blocks);
    assert flat[..|h[l]|] == h[l];
  }

  /** The one-operation refinement, at the layer that does the bookkeeping: from a forward boundary,
      the first layer's update either runs out of blocks or returns the history with `xs` appended;
      either way nobody else's blocks change and counts stay exact. It runs out exactly when fewer
      blocks are free than the table lacks plus those to be split; and then the length has advanced
      all the same, unless the lacking ones alone were too many. */
  lemma FirstUpdateCorrect(s: Store, c: Cache, others: multiset<Block>, xs: seq<KV>, h: Hist)
    requires s.pool.blockSize > 0 && Held(s, c, others) && Rep(s, c, h) && |s.kv| == |h| > 0
    requires |h[0]| == c.table.numTokens
    ensures var o := Update(s, c, c.firstLayer, xs);
      var missing := Missing(c.table, s.pool.blockSize, |xs|);
      var splits := Splits(multiset(c.table.blocks) + others, RangeBlocks(c.table, s.pool.blockSize, |xs|));
      && Isolated(s, c, o.store, o.cache, others) && o.cache.pending == |xs|
      && (o.result.Ok? <==> missing + splits <= |s.pool.free|)
      && (o.result.Ok? ==> |o.store.pool.free| + missing + splits == |s.pool.free|)
      && (o.result.Ok? ==>
            GivenUp(multiset(c.table.blocks) + others, RangeBlocks(c.table, s.pool.blockSize, |xs|), multiset(o.cache.table.blocks) + others))
      && o.cache.table.numTokens == c.table.numTokens + (if missing <= |s.pool.free| then |xs| else 0)
      && (o.result.Err? ==> o.result.error == OutOfBlocks && Rep(o.store, o.cache, h))
      && (o.result.Ok? ==>
            && o.result.value == h[0] + xs
            && Rep(o.store, o.cache, h[0 := h[0] + xs])
            && Private(s.pool.blockSize, o.cache, others, c.table.numTokens, |xs|))
  {
    hide Isolated, Held, Rep, Private, Begin, Write, Gather, Missing, Splits, RangeBlocks, GivenUp, P.Exact;
    BeginCorrect(s, c, others, |xs|, h);
    HeldCapacity(s, c, others, h);
    BeginExact(s, c, others, |xs|);
    var o := Begin(s, c, |xs|);
    IsolatedShape(s, c, o.store, o.cache, others);
    if o.result.Ok? {
      BeginCounts(s, c, others, |xs|);
      RepCapacity(o.store, o.cache, h);
      LayerCorrect(o.store, o.cache, others, 0, xs, h);
      var written := Write(o.store.kv[0], o.cache.table.blocks, s.pool.blockSize, |h[0]|, xs);
      IsolatedTrans(s, c, o.store, o.cache, o.store.(kv := o.store.kv[0 := written]), o.cache, others);
    }
  }

  lemma HeldCapacity(s: Store, c: Cache, others: multiset<Block>, h: Hist)
    requires Held(s, c, others) && Rep(s, c, h)
    ensures P.Exact(s.pool, multiset(c.table.blocks) + others) && c.table.numTokens <= |c.table.blocks| * s.pool.blockSize
  {
  }

  lemma IsolatedShape(s: Store, c: Cache, s': Store, c': Cache, others: multiset<Block>)
    requires Isolated(s, c, s', c', others)
    ensures Held(s', c', others) && |s'.kv| == |s.kv| && c'.firstLayer == c.firstLayer
    ensures s'.pool.blockSize == s.pool.blockSize && |s'.pool.refcount| == |s.pool.refcount|
    ensures s'.pool.blockSize > 0
  {
  }

  /** The same at a later layer of the same forward. */
  lemma LaterUpdateCorrect(s: Store, c: Cache, others: multiset<Block>, layer: nat, xs: seq<KV>, h: Hist)
    requires s.pool.blockSize > 0 && Held(s, c, others) && Rep(s, c, h) && |h| == |s.kv|
    requires c.firstLayer < layer < c.firstLayer + |s.kv|
    requires |xs| == c.pending <= c.table.numTokens
    requires |h[layer - c.firstLayer]| + c.pending == c.table.numTokens
    requires Private(s.pool.blockSize, c, others, c.table.numTokens - c.pending, c.pending)
    ensures var l := layer - c.firstLayer;
      var o := Update(s, c, layer, xs);
      && o.result == Ok(h[l] + xs)
      && Isolated(s, c, o.store, o.cache, others)
      && o.cache == c && o.store.pool == s.pool
      && Rep(o.store, o.cache, h[l := h[l] + xs])
      && Private(s.pool.blockSize, o.cache, others, c.table.numTokens - c.pending, c.pending)
  {
    hide Isolated, Held, Rep, Private, Begin, Write, Gather;
    RepCapacity(s, c, h);
    LayerCorrect(s, c, others, layer - c.firstLayer, xs, h);
  }

  /** With capacity already there and nothing shared, the update cannot run out of blocks. */
  lemma UpdateCannotFail(s: Store, c: Cache, others: multiset<Block>, xs: seq<KV>, h: Hist)
    requires Held(s, c, others) && Rep(s, c, h) && |s.kv| > 0
    requires |h[0]| == c.table.numTokens
    requires Unshared(multiset(c.table.blocks) + others)
    requires CeilDiv(c.table.numTokens + |xs|, s.pool.blockSize) <= |c.table.blocks|
    ensures var o := Update(s, c, c.firstLayer, xs);
      o.result.Ok? && o.store.pool == s.pool && o.cache.table.blocks == c.table.blocks
  {
    AppendCorrect(s, c, others, |xs|, h);
    var t1 := c.table.(numTokens := c.table.numTokens + |xs|);
    var c1 := c.(pending := |xs|, table := t1);
    assert Append(s.pool, c.table, |xs|).table == t1;
    assert Rep(s, c1, h);
    var bs := s.pool.blockSize;
    WriteRange(c.table.numTokens, |xs|, bs, |c.table.blocks|);
    UnshareRangeIdle(s, c1, others, c.table.numTokens / bs, (c.table.numTokens + |xs| - 1) / bs, h);
    assert Begin(s, c, |xs|) == Out(s, c1, Ok(()));
  }

  // ----------------------------------------------------------------------------- fork and free

  /** A fork shares every block: both sequences hold the same history and counts stay exact. */
  lemma ForkCorrect(s: Store, c: Cache, others: multiset<Block>, h: Hist)
    requires Held(s, c, others) && Rep(s, c, h)
    ensures var o := ForkTable(s.pool, c.table);
      && o.result == Ok(c.table)
      && Held(s.(pool := o.pool), c, multiset(c.table.blocks) + others)
      && |o.pool.refcount| == |s.pool.refcount| && o.pool.blockSize == s.pool.blockSize
  {
    var held := multiset(c.table.blocks) + others;
    forall b | b in c.table.blocks ensures b in held {
      assert b in multiset(c.table.blocks);
    }
    P.IncrefExact(s.pool, held, c.table.blocks);
    assert held + multiset(c.table.blocks) == multiset(c.table.blocks) + (multiset(c.table.blocks) + others);
  }

  /** Freeing always succeeds, gives back exactly this sequence's references, and touches no data. */
  lemma FreeCorrect(s: Store, c: Cache, others: multiset<Block>)
    requires Held(s, c, others)
    ensures var o := FreeTable(s.pool, c.table);
      && o.result.Ok? && o.table == EMPTY_TABLE
      && P.Exact(o.pool, others)
      && Isolated(s, c, s.(pool := o.pool), c.(table := EMPTY_TABLE), others)
      && |o.pool.free| == |s.pool.free| + o.result.value
      && |o.pool.refcount| == |s.pool.refcount| && o.pool.blockSize == s.pool.blockSize
      && (Unshared(multiset(c.table.blocks) + others) ==> o.result.value == |c.table.blocks|)
  {
    var held := multiset(c.table.blocks) + others;
    P.FreeExact(s.pool, held, c.table.blocks);
    assert held - multiset(c.table.blocks) == others;
    var o := FreeTable(s.pool, c.table);
    assert multiset(EMPTY_TABLE.blocks) + others == others;
    if Unshared(held) {
      P.Conservation(s.pool, held);
      assert Unshared(others) by {
        forall b ensures others[b] <= 1 { assert held[b] <= 1; }
      }
      P.Conservation(o.pool, others);
      assert |held| == |c.table.blocks| + |others|;
    }
  }
}
