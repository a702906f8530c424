/** The reference for fused paged attention (edgerag/cache/fused.py): one decode query against a pool of
    scattered blocks, proved to be softmax attention over the sequence's gathered history. */
module Fused {
  import opened Common
  import opened Tensors
  import opened Paging
  import opened PagingProofs
  import opened Arenas
  import opened ArenaProofs
  import opened ArenaRuns
  import opened Owners
  import opened Softmax

  // --------------------------------------------------------------------------------- head mapping

  function Times<T>(x: T, n: nat): (r: seq<T>)
    ensures |r| == n && forall i :: 0 <= i < n ==> r[i] == x
  {
    seq(n, i => x)
  }

  /** `repeat_kv`: each KV head `n` times in a row. */
  function RepeatHeads<T>(heads: seq<T>, n: nat): (r: seq<T>)
    ensures |r| == |heads| * n
  {
    if heads == [] then []
    else
      assert |heads| * n == n + (|heads| - 1) * n;
      Times(heads[0], n) + RepeatHeads(heads[1..], n)
  }

  lemma ProductPositive(a: nat, b: nat, h: nat)
    requires h < a * b
    ensures a > 0 && b > 0
  {
  }

  function KVHead(h: nat, nRep: nat): nat {
    if nRep == 0 then 0 else DivBounds(h, nRep); h / nRep
  }

  lemma KVHeadIs(h: nat, nRep: nat)
    requires nRep > 0
    ensures KVHead(h, nRep) == h / nRep
  {
  }

  /** Query head `h` reads KV head `h / n`. */
  lemma {:induction false} RepeatAt<T>(heads: seq<T>, n: nat, h: nat)
    requires h < |heads| * n
    ensures n > 0 && 0 <= h / n < |heads| && RepeatHeads(heads, n)[h] == heads[h / n]
  {
    var m := |heads|;
    ProductPositive(m, n, h);
    assert m * n == n + (m - 1) * n;
    if h < n {
      DivUnique(h, n, 0);
    } else {
      RepeatAt(heads[1..], n, h - n);
      NextDiv(h, n);
    }
  }

  lemma NextDiv(h: nat, n: nat)
    requires 0 < n <= h
    ensures h / n == (h - n) / n + 1
  {
    DivBounds(h - n, n);
    DivUnique(h, n, (h - n) / n + 1);
  }

  // --------------------------------------------------------------------------------- score rows

  function Dot(a: Vec, b: Vec): real {
    if a == [] || b == [] then 0.0 else a[0] * b[0] + Dot(a[1..], b[1..])
  }

  predicate HeadsOf(kv: KV, kvHeads: nat, dim: nat) {
    && |kv.key| == |kv.value| == kvHeads
    && forall j :: 0 <= j < kvHeads ==> |kv.value[j]| == dim
  }

  predicate Heads(rows: seq<KV>, kvHeads: nat, dim: nat) {
    forall i :: 0 <= i < |rows| ==> HeadsOf(rows[i], kvHeads, dim)
  }

  function KeyAt(kv: KV, j: nat): Vec {
    if j < |kv.key| then kv.key[j] else []
  }

  function ValueAt(kv: KV, j: nat, dim: nat): (v: Vec)
    ensures |v| == dim
  {
    if j < |kv.value| && |kv.value[j]| == dim then kv.value[j] else Times(0.0, dim)
  }

  function Score(q: Vec, k: Vec, scaling: real): real {
    Dot(q, k) * scaling
  }

  /** Scores of one query against KV head `j` of each cached position. */
  function Scores(q: Vec, rows: seq<KV>, j: nat, scaling: real): (r: seq<real>)
    ensures |r| == |rows|
    ensures forall i :: 0 <= i < |rows| ==> r[i] == Score(q, KeyAt(rows[i], j), scaling)
  {
    seq(|rows|, i requires 0 <= i < |rows| => Score(q, KeyAt(rows[i], j), scaling))
  }

  function Values(rows: seq<KV>, j: nat, dim: nat): (r: seq<Vec>)
    ensures |r| == |rows|
    ensures forall i :: 0 <= i < |rows| ==> r[i] == ValueAt(rows[i], j, dim) && |r[i]| == dim
  {
    seq(|rows|, i requires 0 <= i < |rows| => ValueAt(rows[i], j, dim))
  }

  /** Attention over a contiguous history, every head at once. */
  function FullAttention(exp: real -> real, query: seq<Vec>, history: seq<KV>, scaling: real, nRep: nat, dim: nat): (r: seq<Vec>)
    ensures |r| == |query|
  {
    seq(|query|, h requires 0 <= h < |query| =>
      Attend(exp, Scores(query[h], history, KVHead(h, nRep), scaling), Values(history, KVHead(h, nRep), dim), dim))
  }

  // ------------------------------------------------------------------------------------ one block

  predicate Fits(layer: Layer, blockIds: seq<Block>, bs: nat, kvHeads: nat, dim: nat) {
    forall b :: b in blockIds ==> 0 <= b < |layer| && |layer[b]| == bs && Heads(layer[b], kvHeads, dim)
  }

  /** The blocks the first `seqLen` positions are in; the loop stops before any other. */
  function Used(blockIds: seq<Block>, bs: nat, seqLen: int): (r: seq<Block>)
    requires bs > 0
    ensures |r| <= |blockIds| && r == blockIds[..|r|]
    ensures forall k: nat :: k < |r| <==> k < |blockIds| && k * bs < seqLen
  {
    var n := CeilDiv(Max(0, seqLen), bs);
    forall k: nat ensures k < n <==> k * bs < seqLen {
      CeilDivAdjunction(Max(0, seqLen), bs, k);
    }
    blockIds[..Min(|blockIds|, n)]
  }

  /** What lies past them is never gathered. */
  lemma UsedGather(layer: Layer, blockIds: seq<Block>, bs: nat, seqLen: nat)
    requires bs > 0 && forall k :: 0 <= k < |Used(blockIds, bs, seqLen)| ==> |Row(layer, blockIds[k])| == bs
    ensures Gather(layer, Table(blockIds, seqLen)) == Gather(layer, Table(Used(blockIds, bs, seqLen), seqLen))
  {
    hide Row;
    var used := Used(blockIds, bs, seqLen);
    if |used| < |blockIds| {
      assert !(|used| < |used|) && |used| * bs >= seqLen;
      ConcatLength(Rows(layer, used), bs);
      assert blockIds == used + blockIds[|used|..];
      FlatAppend(layer, used, blockIds[|used|..]);
    } else {
      assert used == blockIds;
    }
  }

  /** The rows after `repeat_interleave` over heads. */
  function Repeated(rows: seq<KV>, nRep: nat): (r: seq<KV>)
    ensures |r| == |rows|
    ensures forall i :: 0 <= i < |rows| ==> r[i] == KV(RepeatHeads(rows[i].key, nRep), RepeatHeads(rows[i].value, nRep))
  {
    seq(|rows|, i requires 0 <= i < |rows| => KV(RepeatHeads(rows[i].key, nRep), RepeatHeads(rows[i].value, nRep)))
  }

  /** Reading head `h` of the repeated rows is reading KV head `h / nRep` of the rows. */
  lemma RepeatedReads(q: Vec, rows: seq<KV>, h: nat, scaling: real, nRep: nat, kvHeads: nat, dim: nat)
    requires Heads(rows, kvHeads, dim) && h < kvHeads * nRep
    ensures Scores(q, Repeated(rows, nRep), h, scaling) == Scores(q, rows, KVHead(h, nRep), scaling)
    ensures Values(Repeated(rows, nRep), h, dim) == Values(rows, KVHead(h, nRep), dim)
  {
    hide RepeatHeads, Score, KeyAt, ValueAt;
    forall i | 0 <= i < |rows|
      ensures KeyAt(Repeated(rows, nRep)[i], h) == KeyAt(rows[i], KVHead(h, nRep))
      ensures ValueAt(Repeated(rows, nRep)[i], h, dim) == ValueAt(rows[i], KVHead(h, nRep), dim)
    {
      assert HeadsOf(rows[i], kvHeads, dim);
      RepeatedReadsOne(rows[i], h, nRep, kvHeads, dim);
    }
  }

  lemma RepeatedReadsOne(kv: KV, h: nat, nRep: nat, kvHeads: nat, dim: nat)
    requires HeadsOf(kv, kvHeads, dim) && h < kvHeads * nRep
    ensures KeyAt(KV(RepeatHeads(kv.key, nRep), RepeatHeads(kv.value, nRep)), h) == KeyAt(kv, KVHead(h, nRep))
    ensures ValueAt(KV(RepeatHeads(kv.key, nRep), RepeatHeads(kv.value, nRep)), h, dim) == ValueAt(kv, KVHead(h, nRep), dim)
  {
    hide RepeatHeads, KVHead;
    ProductPositive(kvHeads, nRep, h);
    KVHeadIs(h, nRep);
    RepeatAt(kv.key, nRep, h);
    RepeatAt(kv.value, nRep, h);
  }

  lemma ScoresJoin(q: Vec, a: seq<KV>, b: seq<KV>, j: nat, scaling: real, dim: nat)
    ensures Scores(q, a + b, j, scaling) == Scores(q, a, j, scaling) + Scores(q, b, j, scaling)
    ensures Values(a + b, j, dim) == Values(a, j, dim) + Values(b, j, dim)
  {
    hide Score, ValueAt, KeyAt;
  }

  /** The accumulators of every head hold the sums over the positions `done`. */
  ghost predicate Accumulated(exp: real -> real, state: seq<Soft>, query: seq<Vec>, done: seq<KV>, scaling: real, nRep: nat, dim: nat) {
    |state| == |query| && forall h :: 0 <= h < |query| ==> HeadSums(exp, state[h], query[h], done, KVHead(h, nRep), scaling, dim)
  }

  ghost predicate HeadSums(exp: real -> real, st: Soft, q: Vec, done: seq<KV>, j: nat, scaling: real, dim: nat) {
    Sums(exp, st, Scores(q, done, j, scaling), Values(done, j, dim), dim)
  }

  /** One turn of the loop over blocks, every head. */
  function AbsorbRows(exp: real -> real, state: seq<Soft>, query: seq<Vec>, rows: seq<KV>, scaling: real, dim: nat): (r: seq<Soft>)
    requires |state| == |query| && rows != [] && forall h :: 0 <= h < |state| ==> |state[h].acc| == dim
    ensures |r| == |query|
  {
    seq(|query|, h requires 0 <= h < |query| => Absorb(exp, state[h], Scores(query[h], rows, h, scaling), Values(rows, h, dim), dim))
  }

  lemma AbsorbsRows(exp: real -> real, state: seq<Soft>, query: seq<Vec>, done: seq<KV>, rows: seq<KV>, scaling: real, nRep: nat, kvHeads: nat, dim: nat)
    requires ExpLaws(exp) && Heads(rows, kvHeads, dim) && rows != [] && |query| == kvHeads * nRep
    requires Accumulated(exp, state, query, done, scaling, nRep, dim)
    ensures forall h :: 0 <= h < |state| ==> |state[h].acc| == dim
    ensures Accumulated(exp, AbsorbRows(exp, state, query, Repeated(rows, nRep), scaling, dim), query, done + rows, scaling, nRep, dim)
  {
    hide ExpLaws, Absorb, RepeatHeads, Dot, Sums, Heads, Repeated;
    forall h | 0 <= h < |query|
      ensures |state[h].acc| == dim
      ensures HeadSums(exp, Absorb(exp, state[h], Scores(query[h], Repeated(rows, nRep), h, scaling), Values(Repeated(rows, nRep), h, dim), dim),
                       query[h], done + rows, KVHead(h, nRep), scaling, dim)
    {
      var q, j := query[h], KVHead(h, nRep);
      assert HeadSums(exp, state[h], q, done, j, scaling, dim);
      SumsShape(exp, state[h], Scores(q, done, j, scaling), Values(done, j, dim), dim);
      RepeatedReads(q, rows, h, scaling, nRep, kvHeads, dim);
      ScoresJoin(q, done, rows, j, scaling, dim);
      AbsorbExact(exp, state[h], Scores(q, done, j, scaling), Values(done, j, dim), Scores(q, rows, j, scaling), Values(rows, j, dim), dim);
    }
  }

  lemma SumsShape(exp: real -> real, st: Soft, s: seq<real>, values: seq<Vec>, dim: nat)
    requires Sums(exp, st, s, values, dim)
    ensures |st.acc| == dim
  {
  }

  // ----------------------------------------------------------------------- where the loop has been

  /** The positions the first `k` blocks contribute. */
  function Covered(layer: Layer, blockIds: seq<Block>, seqLen: nat, k: nat): (r: seq<KV>)
    requires k <= |blockIds|
  {
    Gather(layer, Table(blockIds[..k], seqLen))
  }

  lemma FitsFlat(layer: Layer, blockIds: seq<Block>, bs: nat, kvHeads: nat, dim: nat)
    requires Fits(layer, blockIds, bs, kvHeads, dim)
    ensures |Flat(layer, blockIds)| == |blockIds| * bs
  {
    hide Heads;
    forall k | 0 <= k < |blockIds| ensures |Row(layer, blockIds[k])| == bs { assert blockIds[k] in blockIds; }
    ConcatLength(Rows(layer, blockIds), bs);
  }

  /** A block that starts before `seqLen` contributes its rows up to `seqLen`. */
  lemma CoverMore(layer: Layer, blockIds: seq<Block>, bs: nat, seqLen: nat, k: nat, kvHeads: nat, dim: nat)
    requires Fits(layer, blockIds, bs, kvHeads, dim) && k < |blockIds| && k * bs < seqLen && bs > 0
    ensures blockIds[k] in blockIds
    ensures var valid := Min(bs, seqLen - k * bs);
      Covered(layer, blockIds, seqLen, k + 1) == Covered(layer, blockIds, seqLen, k) + layer[blockIds[k]][..valid]
  {
    hide Heads, Flat;
    assert forall b :: b in blockIds[..k] ==> b in blockIds;
    assert blockIds[k] in blockIds;
    FitsFlat(layer, blockIds[..k], bs, kvHeads, dim);
    FlatPush(layer, blockIds, k);
    var n := k * bs;
    assert |Flat(layer, blockIds[..k])| == n;
  }

  /** Blocks that start at or past `seqLen` contribute nothing. */
  lemma CoverAll(layer: Layer, blockIds: seq<Block>, bs: nat, seqLen: nat, k: nat, kvHeads: nat, dim: nat)
    requires Fits(layer, blockIds, bs, kvHeads, dim) && k <= |blockIds| && (k < |blockIds| ==> k * bs >= seqLen)
    ensures Covered(layer, blockIds, seqLen, k) == Gather(layer, Table(blockIds, seqLen))
  {
    hide Heads, Flat;
    assert blockIds == blockIds[..k] + blockIds[k..];
    assert forall b :: b in blockIds[..k] ==> b in blockIds;
    FitsFlat(layer, blockIds[..k], bs, kvHeads, dim);
    FlatAppend(layer, blockIds[..k], blockIds[k..]);
    if k == |blockIds| {
      assert blockIds[..k] == blockIds;
    }
  }

  // ------------------------------------------------------------------------------------ the loop

  /** For every score row, block size, scattered table and length, the blockwise recurrence returns
      softmax attention over exactly the positions the sequence gathers. */
  method PagedAttentionReference(exp: real -> real, query: seq<Vec>, positions: nat, layer: Layer, blockIds: seq<Block>, bs: nat,
      kvHeads: nat, dim: nat, seqLen: int, scaling: real, nRep: nat, tiny: real)
    returns (r: Result<seq<Vec>>)
    requires ExpLaws(exp) && 0.0 < tiny <= 1.0 && bs > 0
    requires Fits(layer, Used(blockIds, bs, seqLen), bs, kvHeads, dim)
    ensures r ==
      if positions != 1 || |query| != kvHeads * nRep then Err(ValueError)
      else Ok(FullAttention(exp, query, Gather(layer, Table(blockIds, Max(0, seqLen))), scaling, nRep, dim))
    ensures r.Ok? && seqLen <= 0 ==> forall h :: 0 <= h < |query| ==> |r.value| == |query| && r.value[h] == Times(0.0, dim)
  {
    hide ExpLaws, Heads, Fits, FullAttention, Gather, Accumulated, Covered, AbsorbRows, Divide, Repeated, Used;
    if positions != 1 {
      return Err(ValueError);
    }
    if |query| != kvHeads * nRep {
      return Err(ValueError);
    }
    if seqLen <= 0 {
      NothingToAttend(exp, query, layer, blockIds, scaling, nRep, dim);
      return Ok(Times(Times(0.0, dim), |query|));
    }
    ghost var used := Used(blockIds, bs, seqLen);
    UsedFits(layer, blockIds, bs, seqLen, kvHeads, dim);
    var state := Times(Soft(None, 0.0, Times(0.0, dim)), |query|);
    NothingYet(exp, state, query, layer, used, seqLen, scaling, nRep, dim);
    var k := 0;
    while k < |blockIds|
      invariant 0 <= k <= |used|
      invariant |state| == |query| == kvHeads * nRep
      invariant Accumulated(exp, state, query, Covered(layer, used, seqLen, k), scaling, nRep, dim)
    {
      var start := k * bs;
      var valid := Min(bs, seqLen - start);
      if valid <= 0 {
        break;
      }
      CoverMore(layer, used, bs, seqLen, k, kvHeads, dim);
      BlockFits(layer, used, bs, k, kvHeads, dim, valid);
      var rows := layer[blockIds[k]][..valid];
      AbsorbsRows(exp, state, query, Covered(layer, used, seqLen, k), rows, scaling, nRep, kvHeads, dim);
      state := AbsorbRows(exp, state, query, Repeated(rows, nRep), scaling, dim);
      k := k + 1;
    }
    CoverAll(layer, used, bs, seqLen, k, kvHeads, dim);
    AllDivided(exp, state, query, Gather(layer, Table(blockIds, seqLen)), scaling, nRep, dim, tiny);
    return Ok(seq(|query|, h requires 0 <= h < |query| => Divide(state[h], tiny)));
  }

  lemma UsedFits(layer: Layer, blockIds: seq<Block>, bs: nat, seqLen: nat, kvHeads: nat, dim: nat)
    requires bs > 0 && Fits(layer, Used(blockIds, bs, seqLen), bs, kvHeads, dim)
    ensures var used := Used(blockIds, bs, seqLen);
      && |used| <= |blockIds| && (forall k :: 0 <= k < |used| ==> used[k] == blockIds[k])
      && (forall k: nat :: k < |used| <==> k < |blockIds| && k * bs < seqLen)
      && Gather(layer, Table(blockIds, seqLen)) == Gather(layer, Table(used, seqLen))
  {
    hide Heads;
    var used := Used(blockIds, bs, seqLen);
    forall k | 0 <= k < |used| ensures |Row(layer, blockIds[k])| == bs {
      assert used[k] in used;
    }
    UsedGather(layer, blockIds, bs, seqLen);
  }

  lemma BlockFits(layer: Layer, blockIds: seq<Block>, bs: nat, k: nat, kvHeads: nat, dim: nat, valid: nat)
    requires Fits(layer, blockIds, bs, kvHeads, dim) && k < |blockIds| && valid <= bs
    ensures 0 <= blockIds[k] < |layer| && |layer[blockIds[k]]| == bs && Heads(layer[blockIds[k]][..valid], kvHeads, dim)
  {
    assert blockIds[k] in blockIds;
  }

  lemma NothingToAttend(exp: real -> real, query: seq<Vec>, layer: Layer, blockIds: seq<Block>, scaling: real, nRep: nat, dim: nat)
    ensures Times(Times(0.0, dim), |query|) == FullAttention(exp, query, Gather(layer, Table(blockIds, 0)), scaling, nRep, dim)
  {
    assert Gather(layer, Table(blockIds, 0)) == [];
    forall h | 0 <= h < |query|
      ensures Times(0.0, dim) == Attend(exp, Scores(query[h], [], KVHead(h, nRep), scaling), Values([], KVHead(h, nRep), dim), dim)
    {
      assert Scores(query[h], [], KVHead(h, nRep), scaling) == [];
    }
  }

  lemma NothingYet(exp: real -> real, state: seq<Soft>, query: seq<Vec>, layer: Layer, blockIds: seq<Block>, seqLen: nat, scaling: real, nRep: nat, dim: nat)
    requires state == Times(Soft(None, 0.0, Times(0.0, dim)), |query|)
    ensures Accumulated(exp, state, query, Covered(layer, blockIds, seqLen, 0), scaling, nRep, dim)
  {
    assert blockIds[..0] == [] && Rows(layer, []) == [] && Covered(layer, blockIds, seqLen, 0) == [];
    forall h | 0 <= h < |query| ensures HeadSums(exp, state[h], query[h], [], KVHead(h, nRep), scaling, dim) {
      var j := KVHead(h, nRep);
      assert Scores(query[h], [], j, scaling) == [] && Values([], j, dim) == [];
      forall c | 0 <= c < dim ensures 0.0 == Mix(exp, [], Column([], c), 0.0) {
        MixNone(exp, Column([], c), 0.0);
      }
    }
  }

  lemma AllDivided(exp: real -> real, state: seq<Soft>, query: seq<Vec>, history: seq<KV>, scaling: real, nRep: nat, dim: nat, tiny: real)
    requires ExpLaws(exp) && 0.0 < tiny <= 1.0 && Accumulated(exp, state, query, history, scaling, nRep, dim)
    ensures |state| == |query|
    ensures seq(|query|, h requires 0 <= h < |query| => Divide(state[h], tiny)) == FullAttention(exp, query, history, scaling, nRep, dim)
  {
    hide ExpLaws, Sums, Divide, Attend;
    forall h | 0 <= h < |query|
      ensures Divide(state[h], tiny) == Attend(exp, Scores(query[h], history, KVHead(h, nRep), scaling), Values(history, KVHead(h, nRep), dim), dim)
    {
      var j := KVHead(h, nRep);
      assert HeadSums(exp, state[h], query[h], history, j, scaling, dim);
      DivideIsAttend(exp, state[h], Scores(query[h], history, j, scaling), Values(history, j, dim), dim, tiny);
    }
  }

  /** What a table maps position `i` to. */
  function Slot(layer: Layer, blocks: seq<Block>, bs: nat, i: nat): Option<KV>
    requires bs > 0
  {
    var k, s := i / bs, i % bs;
    if 0 <= k < |blocks| && 0 <= s < |Row(layer, blocks[k])| then Some(Row(layer, blocks[k])[s]) else None
  }

  /** Slots at or past the length and surplus blocks have no effect: two pools and tables that agree on
      the first `seqLen` positions gather, and so attend to, the same. */
  lemma TailHasNoEffect(layer: Layer, blocks: seq<Block>, layer': Layer, blocks': seq<Block>, bs: nat, seqLen: nat)
    requires bs > 0 && seqLen <= |blocks| * bs && seqLen <= |blocks'| * bs
    requires forall k :: 0 <= k < |Used(blocks, bs, seqLen)| ==> |Row(layer, blocks[k])| == bs
    requires forall k :: 0 <= k < |Used(blocks', bs, seqLen)| ==> |Row(layer', blocks'[k])| == bs
    requires forall i :: 0 <= i < seqLen ==> Slot(layer, blocks, bs, i) == Slot(layer', blocks', bs, i)
    ensures Gather(layer, Table(blocks, seqLen)) == Gather(layer', Table(blocks', seqLen))
  {
    hide Row, Used, Flat, Slot;
    var used, used' := Used(blocks, bs, seqLen), Used(blocks', bs, seqLen);
    UsedGather(layer, blocks, bs, seqLen);
    UsedGather(layer', blocks', bs, seqLen);
    UsedCovers(layer, blocks, bs, seqLen);
    UsedCovers(layer', blocks', bs, seqLen);
    forall i | 0 <= i < seqLen ensures Flat(layer, used)[i] == Flat(layer', used')[i] {
      assert Slot(layer, blocks, bs, i) == Slot(layer', blocks', bs, i);
    }
    assert Flat(layer, used)[..seqLen] == Flat(layer', used')[..seqLen];
  }

  lemma UsedCovers(layer: Layer, blocks: seq<Block>, bs: nat, seqLen: nat)
    requires bs > 0 && seqLen <= |blocks| * bs
    requires forall k :: 0 <= k < |Used(blocks, bs, seqLen)| ==> |Row(layer, blocks[k])| == bs
    ensures var used := Used(blocks, bs, seqLen);
      && seqLen <= |Flat(layer, used)|
      && forall i :: 0 <= i < seqLen ==> Slot(layer, blocks, bs, i) == Some(Flat(layer, used)[i])
  {
    hide Row, Concat;
    var used := Used(blocks, bs, seqLen);
    ConcatLength(Rows(layer, used), bs);
    assert seqLen <= |used| * bs;
    forall i | 0 <= i < seqLen ensures Slot(layer, blocks, bs, i) == Some(Flat(layer, used)[i]) {
      ConcatAt(Rows(layer, used), bs, i);
    }
  }

  /** On any arena reachable by its tenants, the fused reference attends to the sequence's own history. */
  lemma FusedSeesHistory(a: Arena, os: seq<Owner>, id: nat, l: nat, kvOf: Oracle, exp: real -> real, query: seq<Vec>, scaling: real, nRep: nat, dim: nat)
    requires Tracked(a, os, kvOf) && id < |os| == |a.caches| && l < |a.store.kv| && Between(os[id])
    ensures l < |os[id].hist|
    ensures FullAttention(exp, query, Gather(a.store.kv[l], a.caches[id].table), scaling, nRep, dim)
         == FullAttention(exp, query, os[id].hist[l], scaling, nRep, dim)
  {
    hide FullAttention, Inv, Between, Boundary, Gather;
    TrackedFacts(a, os, kvOf);
    InvMeans(a, Hists(os), kvOf);
  }

  // ---------------------------------------------------------------------- what the attention is

  lemma {:induction false} DotLinear(p: Vec, q: Vec, r: Vec, k: Vec, a: real, b: real)
    requires |r| == |k| && Combines(p, q, r, a, b)
    ensures Dot(r, k) == a * Dot(p, k) + b * Dot(q, k)
  {
    if r != [] {
      DotLinear(p[1..], q[1..], r[1..], k[1..], a, b);
      assert (a * p[0] + b * q[0]) * k[0] == a * (p[0] * k[0]) + b * (q[0] * k[0]);
      Gather2(a, p[0] * k[0], Dot(p[1..], k[1..]), b, q[0] * k[0], Dot(q[1..], k[1..]));
    }
  }

  lemma {:induction false} DotSwaps(q: Vec, k: Vec)
    ensures Dot(q, k) == Dot(k, q)
  {
    if q != [] && k != [] {
      DotSwaps(q[1..], k[1..]);
    }
  }

  lemma {:induction false} DotZero(q: Vec, k: Vec)
    requires forall i :: 0 <= i < |q| ==> q[i] == 0.0
    ensures Dot(q, k) == 0.0
  {
    if q != [] && k != [] {
      DotZero(q[1..], k[1..]);
    }
  }

  lemma {:induction false} DotUnit(q: Vec, k: Vec, i: nat)
    requires i < |q| == |k| && forall j :: 0 <= j < |q| ==> q[j] == if j == i then 1.0 else 0.0
    ensures Dot(q, k) == k[i]
  {
    if i == 0 {
      DotZero(q[1..], k[1..]);
    } else {
      DotUnit(q[1..], k[1..], i - 1);
    }
  }

  /** A score is linear in the query and in the key, proportional to the scaling, and reads one component of
      the key for a unit query. */
  lemma ScoreIs(p: Vec, q: Vec, r: Vec, k: Vec, a: real, b: real, scaling: real, x: real, unit: Vec, i: nat)
    requires |r| == |k| && Combines(p, q, r, a, b)
    requires i < |unit| == |k| && forall j :: 0 <= j < |unit| ==> unit[j] == if j == i then 1.0 else 0.0
    ensures Score(r, k, scaling) == a * Score(p, k, scaling) + b * Score(q, k, scaling)
    ensures Score(k, r, scaling) == a * Score(k, p, scaling) + b * Score(k, q, scaling)
    ensures Score(r, k, x * scaling) == x * Score(r, k, scaling)
    ensures Score(unit, k, scaling) == k[i] * scaling
  {
    hide Dot;
    DotLinear(p, q, r, k, a, b);
    DotSwaps(r, k);
    DotSwaps(p, k);
    DotSwaps(q, k);
    DotUnit(unit, k, i);
    Scaled(a, Dot(p, k), b, Dot(q, k), scaling);
    Scaled(a, Dot(k, p), b, Dot(k, q), scaling);
    assert Dot(r, k) * (x * scaling) == x * (Dot(r, k) * scaling);
  }

  lemma Scaled(a: real, x: real, b: real, y: real, c: real)
    ensures (a * x + b * y) * c == a * (x * c) + b * (y * c)
  {
  }

  /** Query head `h` of `kvHeads * nRep` reads KV head `j`, over well-formed rows. */
  ghost predicate HeadAt(query: seq<Vec>, history: seq<KV>, nRep: nat, kvHeads: nat, dim: nat, h: nat, j: nat) {
    Heads(history, kvHeads, dim) && h < |query| == kvHeads * nRep && nRep > 0 && j == h / nRep < kvHeads
  }

  /** Every query head has one. */
  lemma HeadOf(query: seq<Vec>, history: seq<KV>, nRep: nat, kvHeads: nat, dim: nat, h: nat) returns (j: nat)
    requires Heads(history, kvHeads, dim) && h < |query| == kvHeads * nRep
    ensures HeadAt(query, history, nRep, kvHeads, dim, h, j)
  {
    RepeatAt(seq(kvHeads, i => 0), nRep, h);
    j := h / nRep;
  }

  /** The keys and values of one KV head. */
  ghost function KeysOf(history: seq<KV>, kvHeads: nat, dim: nat, j: nat): (r: seq<Vec>)
    requires Heads(history, kvHeads, dim) && j < kvHeads
    ensures |r| == |history| && forall i :: 0 <= i < |r| ==> r[i] == history[i].key[j]
  {
    seq(|history|, i requires 0 <= i < |history| => history[i].key[j])
  }

  ghost function ValuesOf(history: seq<KV>, kvHeads: nat, dim: nat, j: nat): (r: seq<Vec>)
    requires Heads(history, kvHeads, dim) && j < kvHeads
    ensures |r| == |history| && forall i :: 0 <= i < |r| ==> r[i] == history[i].value[j] && |r[i]| == dim
  {
    seq(|history|, i requires 0 <= i < |history| => history[i].value[j])
  }

  lemma HeadReads(exp: real -> real, query: seq<Vec>, history: seq<KV>, scaling: real, nRep: nat, kvHeads: nat, dim: nat, h: nat, j: nat)
    requires HeadAt(query, history, nRep, kvHeads, dim, h, j)
    ensures Values(history, j, dim) == ValuesOf(history, kvHeads, dim, j)
    ensures forall i :: 0 <= i < |history| ==> Scores(query[h], history, j, scaling)[i] == Score(query[h], KeysOf(history, kvHeads, dim, j)[i], scaling)
    ensures FullAttention(exp, query, history, scaling, nRep, dim)[h] == Attend(exp, Scores(query[h], history, j, scaling), ValuesOf(history, kvHeads, dim, j), dim)
  {
    hide Attend, Score;
    KVHeadIs(h, nRep);
    forall i | 0 <= i < |history| ensures Values(history, j, dim)[i] == history[i].value[j] {
      assert HeadsOf(history[i], kvHeads, dim);
    }
  }

  /** Over a history with one value everywhere, a head returns that value. */
  lemma HeadConstant(exp: real -> real, query: seq<Vec>, history: seq<KV>, scaling: real, nRep: nat, kvHeads: nat, dim: nat, h: nat, j: nat, v: Vec)
    requires ExpLaws(exp) && HeadAt(query, history, nRep, kvHeads, dim, h, j) && history != [] && |v| == dim
    requires forall i :: 0 <= i < |history| ==> ValuesOf(history, kvHeads, dim, j)[i] == v
    ensures FullAttention(exp, query, history, scaling, nRep, dim)[h] == v
  {
    hide ExpLaws, FullAttention, Attend, Score, Heads;
    HeadReads(exp, query, history, scaling, nRep, kvHeads, dim, h, j);
    AttendConstant(exp, Scores(query[h], history, j, scaling), ValuesOf(history, kvHeads, dim, j), dim, v);
  }

  /** A head is linear in the values of its KV head, the keys staying what they are. */
  lemma HeadLinear(exp: real -> real, query: seq<Vec>, u: seq<KV>, v: seq<KV>, w: seq<KV>, scaling: real, nRep: nat, kvHeads: nat, dim: nat, h: nat, j: nat, a: real, b: real, c: nat)
    requires HeadAt(query, u, nRep, kvHeads, dim, h, j) && HeadAt(query, v, nRep, kvHeads, dim, h, j) && HeadAt(query, w, nRep, kvHeads, dim, h, j)
    requires |u| == |v| == |w| && c < dim
    requires KeysOf(u, kvHeads, dim, j) == KeysOf(w, kvHeads, dim, j) == KeysOf(v, kvHeads, dim, j)
    requires forall i :: 0 <= i < |w| ==>
      ValuesOf(w, kvHeads, dim, j)[i][c] == a * ValuesOf(u, kvHeads, dim, j)[i][c] + b * ValuesOf(v, kvHeads, dim, j)[i][c]
    ensures var ou, ov, ow := FullAttention(exp, query, u, scaling, nRep, dim)[h], FullAttention(exp, query, v, scaling, nRep, dim)[h], FullAttention(exp, query, w, scaling, nRep, dim)[h];
      |ou| == |ov| == |ow| == dim && ow[c] == a * ou[c] + b * ov[c]
  {
    hide FullAttention, Attend, Score, Heads;
    HeadReads(exp, query, u, scaling, nRep, kvHeads, dim, h, j);
    HeadReads(exp, query, v, scaling, nRep, kvHeads, dim, h, j);
    HeadReads(exp, query, w, scaling, nRep, kvHeads, dim, h, j);
    var s := Scores(query[h], w, j, scaling);
    assert s == Scores(query[h], u, j, scaling) && s == Scores(query[h], v, j, scaling);
    AttendLinear(exp, s, ValuesOf(u, kvHeads, dim, j), ValuesOf(v, kvHeads, dim, j), ValuesOf(w, kvHeads, dim, j), dim, a, b, c);
  }

  /** A head weighs position `p` with the exponential of its query's score against the key there, over the sum
      of these at all positions. */
  lemma HeadWeight(exp: real -> real, query: seq<Vec>, history: seq<KV>, scaling: real, nRep: nat, kvHeads: nat, dim: nat, h: nat, j: nat, c: nat, p: nat)
    requires ExpLaws(exp) && HeadAt(query, history, nRep, kvHeads, dim, h, j) && c < dim && p < |history|
    requires forall i :: 0 <= i < |history| ==> ValuesOf(history, kvHeads, dim, j)[i][c] == if i == p then 1.0 else 0.0
    ensures var keys := KeysOf(history, kvHeads, dim, j);
      var scores := seq(|keys|, i requires 0 <= i < |keys| => Score(query[h], keys[i], scaling));
      && Total(Exps(exp, scores)) > 0.0
      && |FullAttention(exp, query, history, scaling, nRep, dim)[h]| == dim
      && FullAttention(exp, query, history, scaling, nRep, dim)[h][c] == exp(scores[p]) / Total(Exps(exp, scores))
  {
    hide ExpLaws, FullAttention, Attend, Score, Heads, Total;
    HeadReads(exp, query, history, scaling, nRep, kvHeads, dim, h, j);
    var keys := KeysOf(history, kvHeads, dim, j);
    AttendWeight(exp, Scores(query[h], history, j, scaling), ValuesOf(history, kvHeads, dim, j), dim, c, p);
    assert Scores(query[h], history, j, scaling) == seq(|keys|, i requires 0 <= i < |keys| => Score(query[h], keys[i], scaling));
  }
}
