/** A batch of independent paged sequences presented as one right-padded cache
    (edgerag/cache/batched.py): batched decode is each sequence decoding alone. */
module Batched {
  import opened Common
  import opened Tensors
  import opened Decoders
  import opened Paging
  import opened WriteCosts
  import opened Arenas
  import opened ArenaProofs
  import opened ArenaRuns
  import opened Owners
  import opened Scheduling
  import opened ForwardProofs

  // ------------------------------------------------------------------------------- the contract

  function MaxLen(lens: seq<nat>): (m: nat)
    ensures forall i :: 0 <= i < |lens| ==> lens[i] <= m
    ensures lens != [] ==> m in lens
  {
    if lens == [] then 0
    else
      var m := MaxLen(lens[1..]);
      assert lens == [lens[0]] + lens[1..];
      if lens[1..] == [] || lens[0] > m then lens[0] else m
  }

  function Lengths(a: Arena, ids: seq<nat>): (r: seq<nat>)
    ensures |r| == |ids| && forall i :: 0 <= i < |ids| ==> r[i] == TokensIn(a, ids[i])
  {
    seq(|ids|, i requires 0 <= i < |ids| => TokensIn(a, ids[i]))
  }

  /** Row `i` of `padding_mask`: the sequence's own tokens and the ones about to be written. */
  function PaddingRow(len: nat, nNew: nat, width: nat): (r: seq<bool>)
    ensures |r| == width && forall k :: 0 <= k < width ==> r[k] == (k < len + nNew)
  {
    seq(width, k => k < len + nNew)
  }

  function Zeros(zero: KV, n: nat): (r: seq<KV>)
    ensures |r| == n
  {
    seq(n, i => zero)
  }

  /** Right padding: the tokens stay at positions `0..len-1`. */
  function Padded(history: seq<KV>, width: nat, zero: KV): seq<KV> {
    history + if |history| < width then Zeros(zero, width - |history|) else []
  }

  /** The padding mask together with the causal mask at the padded width exposes, of the right-padded
      row, exactly the sequence's own history up to and including the new token. */
  lemma OwnHistoryVisible(history: seq<KV>, past: nat, zero: KV)
    requires 0 < |history| <= past + 1
    ensures var row := MaskRow(past, 0, past + 1, Some(PaddingRow(|history| - 1, 1, past + 1)));
      && (forall k :: 0 <= k < past + 1 ==> row[k] == (k <= |history| - 1))
      && Visible(Padded(history, past + 1, zero), row) == history
  {
    var row := MaskRow(past, 0, past + 1, Some(PaddingRow(|history| - 1, 1, past + 1)));
    var padded := Padded(history, past + 1, zero);
    VisibleSplit(padded, row, |history|);
    assert padded[..|history|] == history;
  }

  // ----------------------------------------------------------------------------- the operations

  function UpdateEach(a: Arena, ids: seq<nat>, l: nat, news: seq<KV>): Done
    requires |news| == |ids|
    decreases |ids|
  {
    if ids == [] then Done(a, Ok([]))
    else
      var u := Call(a, Update(ids[0], l, [news[0]]));
      if u.result.Err? then u else UpdateEach(u.arena, ids[1..], l, news[1..])
  }

  /** `update`: one new position per member, or an error before anything is written. */
  function UpdateBatch(a: Arena, ids: seq<nat>, l: nat, news: seq<KV>): Done {
    if |news| != |ids| then Done(a, Err(ValueError))
    else if ids == [] then Done(a, Err(RuntimeFault))
    else UpdateEach(a, ids, l, news)
  }

  function GatherOne(a: Arena, id: nat, l: nat): seq<KV> {
    if id < |a.caches| && l < |a.store.kv| then Gather(a.store.kv[l], a.caches[id].table) else []
  }

  /** `gather`: every member's history, right-padded to the longest. */
  function GatherBatch(a: Arena, ids: seq<nat>, l: nat, zero: KV): (r: seq<seq<KV>>)
    ensures |r| == |ids|
    ensures forall i :: 0 <= i < |ids| ==> r[i] == Padded(GatherOne(a, ids[i], l), MaxLen(Lengths(a, ids)), zero)
  {
    seq(|ids|, i requires 0 <= i < |ids| => Padded(GatherOne(a, ids[i], l), MaxLen(Lengths(a, ids)), zero))
  }

  datatype BatchPassed = BatchPassed(arena: Arena, hidden: seq<Hidden>, error: Option<Error>)

  /** What a decode step over the batch attends with: positions and masks from before the forward. */
  datatype Plan = Plan(positions: seq<nat>, past: nat, zero: KV)

  function PlanOf(a: Arena, ids: seq<nat>, zero: KV): (p: Plan)
    ensures |p.positions| == |ids|
  {
    Plan(Lengths(a, ids), MaxLen(Lengths(a, ids)), zero)
  }

  function ProjectAll(d: Decoder, l: nat, p: Plan, hidden: seq<Hidden>): (r: seq<KV>)
    requires |p.positions| == |hidden|
    ensures |r| == |hidden| && forall i :: 0 <= i < |hidden| ==> r[i] == d.project(l, p.positions[i], hidden[i])
  {
    seq(|hidden|, i requires 0 <= i < |hidden| => d.project(l, p.positions[i], hidden[i]))
  }

  /** One member's attention over its padded row, under the causal mask at the padded width plus its
      padding row. */
  function AttendRow(d: Decoder, l: nat, position: nat, past: nat, hidden: Hidden, row: seq<KV>): Hidden {
    d.attend(l, position, hidden, Visible(row, MaskRow(past, 0, |row|, Some(PaddingRow(position, 1, past + 1)))))
  }

  function AttendAll(d: Decoder, l: nat, p: Plan, hidden: seq<Hidden>, rows: seq<seq<KV>>): (r: seq<Hidden>)
    requires |p.positions| == |hidden| == |rows|
    ensures |r| == |hidden|
    ensures forall i :: 0 <= i < |hidden| ==> r[i] == AttendRow(d, l, p.positions[i], p.past, hidden[i], rows[i])
  {
    seq(|hidden|, i requires 0 <= i < |hidden| => AttendRow(d, l, p.positions[i], p.past, hidden[i], rows[i]))
  }

  /** One decode token per member through every layer on the batched cache. */
  function BatchForward(d: Decoder, a: Arena, ids: seq<nat>, p: Plan, hidden: seq<Hidden>, l: nat): (f: BatchPassed)
    requires l <= d.layers && |hidden| == |ids| == |p.positions|
    ensures |f.hidden| == |ids|
    decreases d.layers - l
  {
    if l == d.layers then BatchPassed(a, hidden, None)
    else
      var u := UpdateBatch(a, ids, l, ProjectAll(d, l, p, hidden));
      match u.result
      case Err(e) => BatchPassed(u.arena, hidden, Some(e))
      case Ok(_) => BatchForward(d, u.arena, ids, p, AttendAll(d, l, p, hidden, GatherBatch(u.arena, ids, l, p.zero)), l + 1)
  }

  // ------------------------------------------------------------------------------------ the proof

  ghost predicate Members(a: Arena, hs: seq<Hist>, ids: seq<nat>) {
    |hs| == |a.caches| && Distinct(ids) && forall i :: 0 <= i < |ids| ==> ids[i] < |a.caches|
  }

  /** Every member has done `l` layers of its own decode step. */
  ghost predicate AllAt(d: Decoder, a: Arena, hs: seq<Hist>, ids: seq<nat>, xss: seq<seq<Hidden>>, ys: seq<Hidden>, l: nat)
    requires Members(a, hs, ids) && |xss| == |ys| == |ids|
  {
    forall i :: 0 <= i < |ids| ==> AtLayer(d, a.caches[ids[i]], hs[ids[i]], xss[i], [ys[i]], l)
  }

  ghost predicate StepInputs(d: Decoder, ids: seq<nat>, xss: seq<seq<Hidden>>, ys: seq<Hidden>, l: nat, hidden: seq<Hidden>)
    requires |xss| == |ys| == |ids| == |hidden|
  {
    forall i :: 0 <= i < |ids| ==> [hidden[i]] == Hiddens(d, xss[i] + [ys[i]], l)[|xss[i]|..]
  }

  ghost predicate OnlyMembersMoved(a: Arena, hs: seq<Hist>, a': Arena, hs': seq<Hist>, ids: seq<nat>)
    requires |hs| == |a.caches|
  {
    && |a'.caches| == |a.caches| && |hs'| == |hs|
    && forall j :: 0 <= j < |hs| && j !in ids ==> a'.caches[j] == a.caches[j] && hs'[j] == hs[j]
  }

  /** One member's update: what `Update` returns and leaves, for a single new position. */
  lemma MemberStep(d: Decoder, a: Arena, hs: seq<Hist>, id: nat, xs: seq<Hidden>, y: Hidden, l: nat, hidden: Hidden) returns (hs': seq<Hist>)
    requires ArenaOk(d, a, hs) && id < |a.caches| && id < |hs| && l < d.layers
    requires AtLayer(d, a.caches[id], hs[id], xs, [y], l) && [hidden] == Hiddens(d, xs + [y], l)[|xs|..]
    ensures var u := Call(a, Update(id, l, [d.project(l, |xs|, hidden)]));
      && ArenaOk(d, u.arena, hs') && Moved(a, hs, u.arena, hs', id)
      && (l > 0 ==> u.result.Ok?)
      && (u.result.Ok? ==> AtLayer(d, u.arena.caches[id], hs'[id], xs, [y], l + 1))
  {
    hide ArenaOk, Hiddens, LayerKV, Call, History, ChunkAttend, Extended, Moved, OnlyMoved, Inv;
    OkFacts(d, a, hs, id);
    var new_ := ChunkKV(d, l, |xs|, [hidden]);
    assert new_ == [d.project(l, |xs|, hidden)];
    var hs1 := hs[id := hs[id][l := hs[id][l] + new_]];
    LayerStep(d, a, hs, id, xs, [y], l, new_);
    var u := Call(a, Update(id, l, new_));
    if u.result.Ok? {
      hs' := hs1;
      OkAfter(d, a, hs, u.arena, hs1, id);
      NextLayer(d, hs[id], xs, [y], l, [hidden]);
    } else {
      hs' := hs;
      OkAfter(d, a, hs, u.arena, hs, id);
    }
  }

  lemma {:induction false} UpdateEachCorrect(d: Decoder, a: Arena, hs: seq<Hist>, ids: seq<nat>, xss: seq<seq<Hidden>>, ys: seq<Hidden>, l: nat, hidden: seq<Hidden>, news: seq<KV>)
    returns (hs': seq<Hist>)
    requires ArenaOk(d, a, hs) && Members(a, hs, ids) && |xss| == |ys| == |ids| == |hidden| == |news| && l < d.layers
    requires AllAt(d, a, hs, ids, xss, ys, l) && StepInputs(d, ids, xss, ys, l, hidden)
    requires forall i :: 0 <= i < |ids| ==> news[i] == d.project(l, |xss[i]|, hidden[i])
    ensures var u := UpdateEach(a, ids, l, news);
      && ArenaOk(d, u.arena, hs') && OnlyMembersMoved(a, hs, u.arena, hs', ids)
      && (l > 0 ==> u.result.Ok?)
      && (u.result.Ok? ==> Members(u.arena, hs', ids) && AllAt(d, u.arena, hs', ids, xss, ys, l + 1))
    decreases |ids|
  {
    hide ArenaOk, Hiddens, Call, AtLayer;
    hs' := hs;
    if ids != [] {
      var id := ids[0];
      assert AtLayer(d, a.caches[id], hs[id], xss[0], [ys[0]], l);
      var hs1 := MemberStep(d, a, hs, id, xss[0], ys[0], l, hidden[0]);
      var u := Call(a, Update(id, l, [news[0]]));
      hs' := hs1;
      assert forall j :: j in ids <==> j == id || j in ids[1..];
      if u.result.Ok? {
        RestAt(d, a, hs, u.arena, hs1, ids, xss, ys, l);
        hs' := UpdateEachCorrect(d, u.arena, hs1, ids[1..], xss[1..], ys[1..], l, hidden[1..], news[1..]);
        var u' := UpdateEach(u.arena, ids[1..], l, news[1..]);
        if u'.result.Ok? {
          FirstAt(d, u.arena, hs1, u'.arena, hs', ids, xss, ys, l + 1);
        }
      }
    }
  }

  lemma RestAt(d: Decoder, a: Arena, hs: seq<Hist>, a1: Arena, hs1: seq<Hist>, ids: seq<nat>, xss: seq<seq<Hidden>>, ys: seq<Hidden>, l: nat)
    requires Members(a, hs, ids) && |xss| == |ys| == |ids| && ids != [] && AllAt(d, a, hs, ids, xss, ys, l)
    requires ids[0] < |a.caches| && Moved(a, hs, a1, hs1, ids[0])
    ensures Members(a1, hs1, ids[1..]) && AllAt(d, a1, hs1, ids[1..], xss[1..], ys[1..], l)
  {
    hide AtLayer;
    forall i | 0 <= i < |ids[1..]|
      ensures AtLayer(d, a1.caches[ids[1..][i]], hs1[ids[1..][i]], xss[1..][i], [ys[1..][i]], l)
    {
      assert ids[i + 1] != ids[0];
      assert AtLayer(d, a.caches[ids[i + 1]], hs[ids[i + 1]], xss[i + 1], [ys[i + 1]], l);
    }
  }

  lemma FirstAt(d: Decoder, a: Arena, hs: seq<Hist>, a1: Arena, hs1: seq<Hist>, ids: seq<nat>, xss: seq<seq<Hidden>>, ys: seq<Hidden>, l: nat)
    requires Members(a, hs, ids) && |xss| == |ys| == |ids| && ids != []
    requires AtLayer(d, a.caches[ids[0]], hs[ids[0]], xss[0], [ys[0]], l)
    requires OnlyMembersMoved(a, hs, a1, hs1, ids[1..]) && Members(a1, hs1, ids[1..])
    requires AllAt(d, a1, hs1, ids[1..], xss[1..], ys[1..], l)
    ensures Members(a1, hs1, ids) && AllAt(d, a1, hs1, ids, xss, ys, l)
  {
    hide AtLayer;
    assert ids[0] !in ids[1..];
    forall i | 0 <= i < |ids| ensures AtLayer(d, a1.caches[ids[i]], hs1[ids[i]], xss[i], [ys[i]], l) {
      if i > 0 {
        assert AtLayer(d, a1.caches[ids[1..][i - 1]], hs1[ids[1..][i - 1]], xss[1..][i - 1], [ys[1..][i - 1]], l);
      }
    }
  }

  /** The gathered row of a member that has done layer `l` is its own history there, padded. */
  lemma GatheredIs(d: Decoder, a: Arena, hs: seq<Hist>, id: nat, xs: seq<Hidden>, y: Hidden, l: nat)
    requires ArenaOk(d, a, hs) && id < |a.caches| && id < |hs| && l < d.layers && AtLayer(d, a.caches[id], hs[id], xs, [y], l + 1)
    ensures GatherOne(a, id, l) == LayerKV(d, xs + [y], l) && TokensIn(a, id) == |xs| + 1
  {
    hide ArenaOk, Inv, Hiddens, LayerKV;
    OkFacts(d, a, hs, id);
    InvHeld(a, hs, NOTHING, id);
    assert hs[id][l] == LayerKV(d, xs + [y], l);
    GatherIsHistory(a.store, a.caches[id], hs[id], l);
  }

  /** Between forwards a gathered row, cut to the length, is what its owner would have in a private cache. */
  lemma GatheredOwn(a: Arena, os: seq<Owner>, id: nat, l: nat, kvOf: Oracle)
    requires Tracked(a, os, kvOf) && id < |os| && Between(os[id]) && l < |a.store.kv|
    ensures l < |os[id].hist| && GatherOne(a, id, l) == os[id].hist[l] && |os[id].hist[l]| == TokensIn(a, id)
  {
    hide Inv, Boundary, Between, Gather;
    TrackedFacts(a, os, kvOf);
    InvMeans(a, Hists(os), kvOf);
    assert |os[id].hist[l]| == os[id].tokens by { BetweenAt(os[id], l); }
  }

  lemma BetweenAt(o: Owner, l: nat)
    requires Between(o) && l < |o.hist|
    ensures |o.hist[l]| == o.tokens
  {
  }

  /** So attending over the padded row under the combined mask is attending alone. */
  lemma AttendsAlone(d: Decoder, xs: seq<Hidden>, y: Hidden, l: nat, hidden: Hidden, past: nat, zero: KV)
    requires [hidden] == Hiddens(d, xs + [y], l)[|xs|..] && |xs| <= past && l < d.layers
    ensures var row := Padded(LayerKV(d, xs + [y], l), past + 1, zero);
      && |row| == past + 1
      && [AttendRow(d, l, |xs|, past, hidden, row)] == Hiddens(d, xs + [y], l + 1)[|xs|..]
  {
    hide Hiddens, LayerKV, Visible;
    var history := LayerKV(d, xs + [y], l);
    ChunkLayer(d, xs, [y], l, [hidden]);
    OwnHistoryVisible(history, past, zero);
    CausalVisibility(history, |xs|, 0);
    assert history[..|xs| + 1] == history;
    assert ChunkAttend(d, l, |xs|, [hidden], history)[0] == d.attend(l, |xs|, hidden, history);
  }

  lemma Widths(a: Arena, ids: seq<nat>, positions: seq<nat>)
    requires |positions| == |ids| && ids != [] && forall i :: 0 <= i < |ids| ==> TokensIn(a, ids[i]) == positions[i] + 1
    ensures MaxLen(Lengths(a, ids)) == MaxLen(positions) + 1
  {
    var lens := Lengths(a, ids);
    var i :| 0 <= i < |lens| && lens[i] == MaxLen(lens);
    var j :| 0 <= j < |positions| && positions[j] == MaxLen(positions);
    assert lens[j] == positions[j] + 1 && lens[i] == positions[i] + 1;
  }

  ghost predicate Planned(p: Plan, xss: seq<seq<Hidden>>) {
    && |p.positions| == |xss| && p.past == MaxLen(p.positions)
    && forall i :: 0 <= i < |xss| ==> p.positions[i] == |xss[i]|
  }

  lemma LayerDone(d: Decoder, a: Arena, hs: seq<Hist>, ids: seq<nat>, xss: seq<seq<Hidden>>, ys: seq<Hidden>, l: nat, hidden: seq<Hidden>, p: Plan)
    requires ArenaOk(d, a, hs) && Members(a, hs, ids) && |xss| == |ys| == |ids| == |hidden| && l < d.layers
    requires AllAt(d, a, hs, ids, xss, ys, l + 1) && StepInputs(d, ids, xss, ys, l, hidden) && Planned(p, xss)
    ensures StepInputs(d, ids, xss, ys, l + 1, AttendAll(d, l, p, hidden, GatherBatch(a, ids, l, p.zero)))
  {
    hide ArenaOk, Hiddens, AllAt, AttendAll, GatherBatch, LayerKV, GatherOne, TokensIn, MaxLen, Lengths;
    forall i | 0 <= i < |ids| ensures TokensIn(a, ids[i]) == p.positions[i] + 1 && GatherOne(a, ids[i], l) == LayerKV(d, xss[i] + [ys[i]], l) {
      MemberGathered(d, a, hs, ids, xss, ys, l, i);
    }
    if ids != [] {
      Widths(a, ids, p.positions);
      var rows := GatherBatch(a, ids, l, p.zero);
      forall i | 0 <= i < |ids|
        ensures [AttendAll(d, l, p, hidden, rows)[i]] == Hiddens(d, xss[i] + [ys[i]], l + 1)[|xss[i]|..]
      {
        MemberAttends(d, l, p, hidden, rows, xss[i], ys[i], i);
      }
    }
  }

  lemma MemberGathered(d: Decoder, a: Arena, hs: seq<Hist>, ids: seq<nat>, xss: seq<seq<Hidden>>, ys: seq<Hidden>, l: nat, i: nat)
    requires ArenaOk(d, a, hs) && Members(a, hs, ids) && |xss| == |ys| == |ids| && l < d.layers && i < |ids|
    requires AllAt(d, a, hs, ids, xss, ys, l + 1)
    ensures TokensIn(a, ids[i]) == |xss[i]| + 1 && GatherOne(a, ids[i], l) == LayerKV(d, xss[i] + [ys[i]], l)
  {
    hide ArenaOk, AtLayer, LayerKV, GatherOne, TokensIn;
    assert AtLayer(d, a.caches[ids[i]], hs[ids[i]], xss[i], [ys[i]], l + 1);
    GatheredIs(d, a, hs, ids[i], xss[i], ys[i], l);
  }

  lemma MemberAttends(d: Decoder, l: nat, p: Plan, hidden: seq<Hidden>, rows: seq<seq<KV>>, xs: seq<Hidden>, y: Hidden, i: nat)
    requires |p.positions| == |hidden| == |rows| && i < |hidden| && l < d.layers
    requires [hidden[i]] == Hiddens(d, xs + [y], l)[|xs|..] && p.positions[i] == |xs| <= p.past
    requires rows[i] == Padded(LayerKV(d, xs + [y], l), p.past + 1, p.zero)
    ensures [AttendAll(d, l, p, hidden, rows)[i]] == Hiddens(d, xs + [y], l + 1)[|xs|..]
  {
    hide Hiddens, LayerKV, AttendRow, Padded;
    AttendsAlone(d, xs, y, l, hidden[i], p.past, p.zero);
  }

  lemma {:induction false} BatchForwardCorrect(d: Decoder, a: Arena, hs: seq<Hist>, ids: seq<nat>, xss: seq<seq<Hidden>>, ys: seq<Hidden>, l: nat, hidden: seq<Hidden>, p: Plan)
    returns (hs': seq<Hist>)
    requires ArenaOk(d, a, hs) && Members(a, hs, ids) && |xss| == |ys| == |ids| == |hidden| && l <= d.layers
    requires AllAt(d, a, hs, ids, xss, ys, l) && StepInputs(d, ids, xss, ys, l, hidden) && Planned(p, xss)
    ensures var f := BatchForward(d, a, ids, p, hidden, l);
      && ArenaOk(d, f.arena, hs') && OnlyMembersMoved(a, hs, f.arena, hs', ids)
      && (l > 0 && ids != [] ==> f.error.None?)
      && (f.error.None? ==>
            && Members(f.arena, hs', ids) && AllAt(d, f.arena, hs', ids, xss, ys, d.layers)
            && StepInputs(d, ids, xss, ys, d.layers, f.hidden))
    decreases d.layers - l
  {
    hide ArenaOk, AllAt, StepInputs, UpdateEach, AttendAll, GatherBatch;
    hs' := hs;
    if l < d.layers && ids != [] {
      var news := ProjectAll(d, l, p, hidden);
      hs' := UpdateEachCorrect(d, a, hs, ids, xss, ys, l, hidden, news);
      var u := UpdateEach(a, ids, l, news);
      if u.result.Ok? {
        LayerDone(d, u.arena, hs', ids, xss, ys, l, hidden, p);
        hs' := BatchForwardCorrect(d, u.arena, hs', ids, xss, ys, l + 1, AttendAll(d, l, p, hidden, GatherBatch(u.arena, ids, l, p.zero)), p);
      }
    }
  }

  // ------------------------------------------------------------------------- what a step costs

  function TableOf(a: Arena, id: nat): Table {
    if id < |a.caches| then a.caches[id].table else EMPTY_TABLE
  }

  /** The blocks the members' tables lack for one more position each. */
  ghost function AllMissing(a: Arena, ids: seq<nat>): nat
    requires a.store.pool.blockSize > 0
  {
    if ids == [] then 0 else Missing(TableOf(a, ids[0]), a.store.pool.blockSize, 1) + AllMissing(a, ids[1..])
  }

  /** The blocks they will write into that their tables have already. */
  ghost function AllRanges(a: Arena, ids: seq<nat>): seq<Block>
    requires a.store.pool.blockSize > 0
  {
    if ids == [] then [] else RangeBlocks(TableOf(a, ids[0]), a.store.pool.blockSize, 1) + AllRanges(a, ids[1..])
  }

  /** What one decode step over the batch takes from the pool: what is missing, and a copy for each of
      those blocks that somebody else, or a later member, refers to as well. */
  ghost function StepCost(a: Arena, ids: seq<nat>): nat
    requires a.store.pool.blockSize > 0
  {
    AllMissing(a, ids) + Splits(AllHeld(a), AllRanges(a, ids))
  }

  lemma {:induction false} CostSame(a: Arena, a': Arena, ids: seq<nat>)
    requires a.store.pool.blockSize == a'.store.pool.blockSize > 0
    requires forall id :: id in ids ==> TableOf(a', id) == TableOf(a, id)
    ensures AllMissing(a', ids) == AllMissing(a, ids) && AllRanges(a', ids) == AllRanges(a, ids)
  {
    hide Missing, RangeBlocks, TableOf;
    if ids != [] {
      assert ids[0] in ids && forall id :: id in ids[1..] ==> id in ids;
      CostSame(a, a', ids[1..]);
    }
  }

  lemma RangeInTable(t: Table, bs: nat)
    requires bs > 0
    ensures multiset(RangeBlocks(t, bs, 1)) <= multiset(t.blocks)
  {
    var first, end := Div(t.numTokens, bs), Min(Div(t.numTokens + 1 - 1, bs) + 1, |t.blocks|);
    if first <= end {
      SliceWithin(t.blocks, first, end, multiset{});
      assert multiset(t.blocks) + multiset{} == multiset(t.blocks);
    }
  }

  /** Different members' blocks are different references. */
  lemma {:induction false} RangesHeld(a: Arena, ids: seq<nat>)
    requires a.store.pool.blockSize > 0 && Distinct(ids) && forall i :: 0 <= i < |ids| ==> ids[i] < |a.caches|
    ensures multiset(AllRanges(a, ids)) <= HeldBy(a.caches)
    decreases |ids|
  {
    hide RangeBlocks, HeldBy;
    if ids != [] {
      var id, rest := ids[0], ids[1..];
      var empty := a.caches[id].(table := EMPTY_TABLE);
      var a0 := a.(caches := a.caches[id := empty]);
      HeldUpdate(a.caches, id, empty);
      RangeInTable(a.caches[id].table, a.store.pool.blockSize);
      forall j | j in rest ensures TableOf(a0, j) == TableOf(a, j) {
        assert j != id;
      }
      CostSame(a, a0, rest);
      RangesHeld(a0, rest);
      assert multiset(AllRanges(a, ids)) == multiset(RangeBlocks(a.caches[id].table, a.store.pool.blockSize, 1)) + multiset(AllRanges(a, rest));
    }
  }

  /** Every member stands between two forwards. */
  ghost predicate AllAtBoundary(a: Arena, hs: seq<Hist>, ids: seq<nat>)
    requires Members(a, hs, ids)
  {
    forall i :: 0 <= i < |ids| ==> Boundary(a.caches[ids[i]], hs[ids[i]])
  }

  /** The first layer's updates, one member after another, succeed exactly when the pool can pay for all. */
  lemma {:induction false} UpdateEachExact(d: Decoder, a: Arena, hs: seq<Hist>, ids: seq<nat>, news: seq<KV>)
    requires ArenaOk(d, a, hs) && Members(a, hs, ids) && AllAtBoundary(a, hs, ids) && |news| == |ids|
    ensures a.store.pool.blockSize > 0
    ensures var u := UpdateEach(a, ids, 0, news);
      && (u.result.Ok? <==> StepCost(a, ids) <= |a.store.pool.free|)
      && (u.result.Err? ==> u.result.error == OutOfBlocks)
    decreases |ids|
  {
    hide ArenaOk, Do, Inv, AllHeld, Splits, Missing, RangeBlocks, GivenUp, Boundary, OnlyMoved, Moved;
    OkBlock(d, a, hs);
    if ids == [] {
      NoSplits(AllHeld(a), []);
    } else {
      var id, rest, bs := ids[0], ids[1..], a.store.pool.blockSize;
      assert Boundary(a.caches[ids[0]], hs[ids[0]]);
      OkFacts(d, a, hs, id);
      FirstLayerStep(a, hs, id, [news[0]], NOTHING);
      var u := Call(a, Update(id, 0, [news[0]]));
      var range := RangeBlocks(a.caches[id].table, bs, 1);
      if u.result.Ok? {
        var hs1 := hs[id := hs[id][0 := hs[id][0] + [news[0]]]];
        OkAfter(d, a, hs, u.arena, hs1, id);
        OkBlock(d, u.arena, hs1);
        RestThere(a, hs, u.arena, hs1, ids);
        UpdateEachExact(d, u.arena, hs1, rest, news[1..]);
        CostSame(a, u.arena, rest);
        RangesHeld(a, ids);
        Within(a, ids);
        SplitsJoin(AllHeld(a), range, AllHeld(u.arena), AllRanges(a, rest));
      } else {
        SplitsGrow(AllHeld(a), range, AllRanges(a, rest));
      }
    }
  }

  lemma OkBlock(d: Decoder, a: Arena, hs: seq<Hist>)
    requires ArenaOk(d, a, hs)
    ensures a.store.pool.blockSize > 0
  {
  }

  lemma Within(a: Arena, ids: seq<nat>)
    requires a.store.pool.blockSize > 0 && ids != [] && ids[0] < |a.caches| && multiset(AllRanges(a, ids)) <= HeldBy(a.caches)
    ensures multiset(RangeBlocks(a.caches[ids[0]].table, a.store.pool.blockSize, 1)) + multiset(AllRanges(a, ids[1..])) <= AllHeld(a)
  {
    hide RangeBlocks, HeldBy;
    assert multiset(AllRanges(a, ids)) == multiset(RangeBlocks(a.caches[ids[0]].table, a.store.pool.blockSize, 1)) + multiset(AllRanges(a, ids[1..]));
  }

  lemma RestThere(a: Arena, hs: seq<Hist>, a1: Arena, hs1: seq<Hist>, ids: seq<nat>)
    requires Members(a, hs, ids) && AllAtBoundary(a, hs, ids) && ids != [] && ids[0] < |a.caches| && |hs| == |a.caches|
    requires Moved(a, hs, a1, hs1, ids[0]) && OnlyMoved(a, a1, ids[0])
    ensures Members(a1, hs1, ids[1..]) && AllAtBoundary(a1, hs1, ids[1..])
    ensures a1.store.pool.blockSize == a.store.pool.blockSize
    ensures forall id :: id in ids[1..] ==> TableOf(a1, id) == TableOf(a, id)
  {
    hide Boundary;
    forall i | 0 <= i < |ids[1..]| ensures ids[1..][i] != ids[0] && Boundary(a1.caches[ids[1..][i]], hs1[ids[1..][i]]) {
      assert Boundary(a.caches[ids[i + 1]], hs[ids[i + 1]]);
    }
  }

  /** Batched decode is solo decode. For any number of sequences of any lengths in one shared pool, sharing
      whatever blocks, one decode step over the batch runs out exactly when the pool cannot pay for all
      members; otherwise it leaves each member with exactly the history and the output of that step taken
      alone on a private contiguous cache; and nobody else changes. (An empty batch is refused.) */
  lemma BatchedIsSolo(d: Decoder, a: Arena, hs: seq<Hist>, ids: seq<nat>, xss: seq<seq<Hidden>>, ys: seq<Hidden>, zero: KV) returns (hs': seq<Hist>)
    requires ArenaOk(d, a, hs) && Members(a, hs, ids) && |xss| == |ys| == |ids|
    requires forall i :: 0 <= i < |ids| ==> hs[ids[i]] == History(d, xss[i]) && TokensIn(a, ids[i]) == |xss[i]|
    ensures var f := BatchForward(d, a, ids, PlanOf(a, ids, zero), ys, 0);
      && ArenaOk(d, f.arena, hs') && OnlyMembersMoved(a, hs, f.arena, hs', ids)
      && a.store.pool.blockSize > 0
      && f.error == (if ids == [] then Some(RuntimeFault) else if StepCost(a, ids) <= |a.store.pool.free| then None else Some(OutOfBlocks))
      && (f.error.None? ==> |f.arena.caches| == |hs'| && forall i :: 0 <= i < |ids| && ids[i] < |hs'| ==>
            var alone := ForwardFrom(d, History(d, xss[i]), |xss[i]|, [ys[i]], 0);
            hs'[ids[i]] == alone.hist && [f.hidden[i]] == alone.hidden)
  {
    hide ArenaOk, Hiddens, LayerKV, BatchForward, ForwardFrom, AtLayer, Extended, History;
    var p := PlanOf(a, ids, zero);
    assert forall i :: 0 <= i < |ids| ==> Lengths(a, ids)[i] == |xss[i]|;
    forall i | 0 <= i < |ids|
      ensures AtLayer(d, a.caches[ids[i]], hs[ids[i]], xss[i], [ys[i]], 0) && [ys[i]] == Hiddens(d, xss[i] + [ys[i]], 0)[|xss[i]|..]
    {
      AtStart(d, a.caches[ids[i]], xss[i], ys[i]);
    }
    hs' := BatchForwardCorrect(d, a, hs, ids, xss, ys, 0, ys, p);
    var f := BatchForward(d, a, ids, p, ys, 0);
    BatchError(d, a, hs, ids, xss, ys, p);
    if f.error.None? {
      forall i | 0 <= i < |ids|
        ensures var alone := ForwardFrom(d, History(d, xss[i]), |xss[i]|, [ys[i]], 0);
          hs'[ids[i]] == alone.hist && [f.hidden[i]] == alone.hidden
      {
        assert AtLayer(d, f.arena.caches[ids[i]], hs'[ids[i]], xss[i], [ys[i]], d.layers);
        AtEnd(d, f.arena.caches[ids[i]], hs'[ids[i]], xss[i], ys[i]);
        Started(d, xss[i], [ys[i]]);
        ForwardCorrect(d, History(d, xss[i]), xss[i], [ys[i]], [ys[i]], 0);
      }
    }
  }

  /** Later layers write where the first has made room, so only it can fail. */
  lemma BatchError(d: Decoder, a: Arena, hs: seq<Hist>, ids: seq<nat>, xss: seq<seq<Hidden>>, ys: seq<Hidden>, p: Plan)
    requires ArenaOk(d, a, hs) && Members(a, hs, ids) && |xss| == |ys| == |ids| && Planned(p, xss)
    requires AllAt(d, a, hs, ids, xss, ys, 0) && StepInputs(d, ids, xss, ys, 0, ys)
    ensures a.store.pool.blockSize > 0 && d.layers > 0
    ensures BatchForward(d, a, ids, p, ys, 0).error ==
      if ids == [] then Some(RuntimeFault) else if StepCost(a, ids) <= |a.store.pool.free| then None else Some(OutOfBlocks)
  {
    hide *;
    OkBlock(d, a, hs);
    OkLayers(d, a, hs);
    PlanSize(p, xss);
    FirstTurn(d, a, ids, p, ys);
    if ids != [] {
      var news := ProjectAll(d, 0, p, ys);
      PlannedNews(d, p, xss, ys, news);
      Boundaries(d, a, hs, ids, xss, ys);
      UpdateEachExact(d, a, hs, ids, news);
      if UpdateEach(a, ids, 0, news).result.Ok? {
        assert |p.positions| == |ids|;
        LaterTurns(d, a, hs, ids, xss, ys, p, news);
      }
    }
  }

  lemma LaterTurns(d: Decoder, a: Arena, hs: seq<Hist>, ids: seq<nat>, xss: seq<seq<Hidden>>, ys: seq<Hidden>, p: Plan, news: seq<KV>)
    requires ArenaOk(d, a, hs) && Members(a, hs, ids) && |xss| == |ys| == |ids| == |news| == |p.positions|
    requires Planned(p, xss) && d.layers > 0 && ids != []
    requires AllAt(d, a, hs, ids, xss, ys, 0) && StepInputs(d, ids, xss, ys, 0, ys)
    requires forall i :: 0 <= i < |ys| ==> news[i] == d.project(0, |xss[i]|, ys[i])
    requires UpdateEach(a, ids, 0, news).result.Ok?
    ensures var u := UpdateEach(a, ids, 0, news);
      BatchForward(d, u.arena, ids, p, AttendAll(d, 0, p, ys, GatherBatch(u.arena, ids, 0, p.zero)), 1).error.None?
  {
    hide *;
    var u := UpdateEach(a, ids, 0, news);
    var hs1 := UpdateEachCorrect(d, a, hs, ids, xss, ys, 0, ys, news);
    LayerDone(d, u.arena, hs1, ids, xss, ys, 0, ys, p);
    var hs2 := BatchForwardCorrect(d, u.arena, hs1, ids, xss, ys, 1, AttendAll(d, 0, p, ys, GatherBatch(u.arena, ids, 0, p.zero)), p);
  }

  lemma FirstTurn(d: Decoder, a: Arena, ids: seq<nat>, p: Plan, ys: seq<Hidden>)
    requires d.layers > 0 && |p.positions| == |ys| == |ids|
    ensures var f := BatchForward(d, a, ids, p, ys, 0);
      if ids == [] then f.error == Some(RuntimeFault)
      else
        var u := UpdateEach(a, ids, 0, ProjectAll(d, 0, p, ys));
        f.error == if u.result.Err? then Some(u.result.error)
                   else BatchForward(d, u.arena, ids, p, AttendAll(d, 0, p, ys, GatherBatch(u.arena, ids, 0, p.zero)), 1).error
  {
    hide UpdateEach, AttendAll, GatherBatch;
  }

  lemma PlanSize(p: Plan, xss: seq<seq<Hidden>>)
    requires Planned(p, xss)
    ensures |p.positions| == |xss|
  {
  }

  lemma PlannedNews(d: Decoder, p: Plan, xss: seq<seq<Hidden>>, ys: seq<Hidden>, news: seq<KV>)
    requires Planned(p, xss) && |xss| == |ys| && |p.positions| == |ys| && news == ProjectAll(d, 0, p, ys)
    ensures forall i :: 0 <= i < |ys| ==> news[i] == d.project(0, |xss[i]|, ys[i])
  {
  }

  lemma OkLayers(d: Decoder, a: Arena, hs: seq<Hist>)
    requires ArenaOk(d, a, hs)
    ensures d.layers > 0
  {
  }

  lemma Boundaries(d: Decoder, a: Arena, hs: seq<Hist>, ids: seq<nat>, xss: seq<seq<Hidden>>, ys: seq<Hidden>)
    requires Members(a, hs, ids) && |xss| == |ys| == |ids| && AllAt(d, a, hs, ids, xss, ys, 0)
    ensures AllAtBoundary(a, hs, ids)
  {
    hide LayerKV;
    forall i | 0 <= i < |ids| ensures Boundary(a.caches[ids[i]], hs[ids[i]]) {
      assert AtLayer(d, a.caches[ids[i]], hs[ids[i]], xss[i], [ys[i]], 0);
      ExtendedLengths(d, hs[ids[i]], xss[i], [ys[i]], 0);
    }
  }

  lemma AtStart(d: Decoder, c: Cache, xs: seq<Hidden>, y: Hidden)
    requires c.table.numTokens == |xs|
    ensures AtLayer(d, c, History(d, xs), xs, [y], 0) && [y] == Hiddens(d, xs + [y], 0)[|xs|..]
  {
    Started(d, xs, [y]);
  }

  lemma AtEnd(d: Decoder, c: Cache, h: Hist, xs: seq<Hidden>, y: Hidden)
    requires AtLayer(d, c, h, xs, [y], d.layers)
    ensures h == History(d, xs + [y])
  {
    Finished(d, h, xs, [y]);
  }
}
