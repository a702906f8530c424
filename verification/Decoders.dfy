/** An abstract L-layer causal decoder, and generation with it on a private contiguous history.

    `project` stands for a layer's norm, key/value projections and rotary embedding at a position,
    `attend` for the rest of the layer given the cached entries its mask lets it see, `pick` for the
    final norm, the head and the argmax. All are arbitrary functions. */
module Decoders {
  import opened Common
  import opened Tensors

  datatype Decoder = Decoder(
    layers: nat,
    embed: Token -> Hidden,
    project: (nat, nat, Hidden) -> KV,
    attend: (nat, nat, Hidden, seq<KV>) -> Hidden,
    pick: Hidden -> Token)

  // -------------------------------------------------------------------------------- visibility

  /** Row `i` of `build_causal_mask(seq_len, past_len)`: which of `width` keys it may attend to,
      combined with a padding row when there is one. */
  function MaskRow(past: nat, i: nat, width: nat, padding: Option<seq<bool>>): (r: seq<bool>)
    ensures |r| == width
  {
    seq(width, k requires 0 <= k < width =>
      k <= past + i && (padding.Some? ==> k < |padding.value| && padding.value[k]))
  }

  /** The entries a mask row leaves visible, in order. */
  function Visible(history: seq<KV>, row: seq<bool>): seq<KV>
    decreases |history|
  {
    if history == [] || row == [] then []
    else (if row[0] then [history[0]] else []) + Visible(history[1..], row[1..])
  }

  lemma {:induction false} VisibleSplit(history: seq<KV>, row: seq<bool>, n: nat)
    requires |row| == |history| && n <= |row|
    requires forall k :: 0 <= k < |row| ==> row[k] == (k < n)
    ensures Visible(history, row) == history[..n]
    decreases |history|
  {
    if history != [] {
      VisibleSplit(history[1..], row[1..], if n == 0 then 0 else n - 1);
      if n > 0 {
        assert history[..n] == [history[0]] + history[1..][..n - 1];
      }
    }
  }

  /** The causal mask shows the query at position `past + i` exactly the keys `0..past + i`. */
  lemma CausalVisibility(history: seq<KV>, past: nat, i: nat)
    requires past + i < |history|
    ensures Visible(history, MaskRow(past, i, |history|, None)) == history[..past + i + 1]
  {
    VisibleSplit(history, MaskRow(past, i, |history|, None), past + i + 1);
  }

  // ---------------------------------------------------------------------------------- forwards

  /** The entries one forward appends at layer `l`. */
  function ChunkKV(d: Decoder, l: nat, past: nat, hs: seq<Hidden>): (r: seq<KV>)
    ensures |r| == |hs|
    ensures forall i :: 0 <= i < |hs| ==> r[i] == d.project(l, past + i, hs[i])
  {
    seq(|hs|, i requires 0 <= i < |hs| => d.project(l, past + i, hs[i]))
  }

  /** Layer `l` applied to a chunk of new positions, given the history `update` returned. */
  function ChunkAttend(d: Decoder, l: nat, past: nat, hs: seq<Hidden>, history: seq<KV>): (r: seq<Hidden>)
    ensures |r| == |hs|
    ensures forall i :: 0 <= i < |hs| ==>
      r[i] == d.attend(l, past + i, hs[i], Visible(history, MaskRow(past, i, |history|, None)))
  {
    seq(|hs|, i requires 0 <= i < |hs| =>
      d.attend(l, past + i, hs[i], Visible(history, MaskRow(past, i, |history|, None))))
  }

  datatype Forward = Forward(hist: Hist, hidden: seq<Hidden>)

  /** A forward over a contiguous cache, from layer `l` on: each layer appends and attends. */
  function ForwardFrom(d: Decoder, h: Hist, past: nat, hs: seq<Hidden>, l: nat): (f: Forward)
    requires |h| == d.layers && l <= d.layers
    ensures |f.hist| == d.layers && |f.hidden| == |hs|
    decreases d.layers - l
  {
    if l == d.layers then Forward(h, hs)
    else
      var appended := h[l] + ChunkKV(d, l, past, hs);
      ForwardFrom(d, h[l := appended], past, ChunkAttend(d, l, past, hs, appended), l + 1)
  }

  /** The hidden states entering layer `l` when the whole input is run at once. */
  ghost function Hiddens(d: Decoder, xs: seq<Hidden>, l: nat): (r: seq<Hidden>)
    ensures |r| == |xs|
    decreases l, 0
  {
    if l == 0 then xs
    else ChunkAttend(d, l - 1, 0, Hiddens(d, xs, l - 1), LayerKV(d, xs, l - 1))
  }

  ghost function LayerKV(d: Decoder, xs: seq<Hidden>, l: nat): (r: seq<KV>)
    ensures |r| == |xs|
    decreases l, 1
  {
    ChunkKV(d, l, 0, Hiddens(d, xs, l))
  }

  /** What every layer of a cache holds after the input `xs`, however it was fed in. */
  ghost function History(d: Decoder, xs: seq<Hidden>): (h: Hist)
    ensures |h| == d.layers
    ensures forall l :: 0 <= l < d.layers ==> h[l] == LayerKV(d, xs, l)
  {
    seq(d.layers, l requires 0 <= l < d.layers => LayerKV(d, xs, l))
  }

  /** The greedy next token after the input `xs`. */
  ghost function Next(d: Decoder, xs: seq<Hidden>): Token
    requires xs != []
  {
    d.pick(Hiddens(d, xs, d.layers)[|xs| - 1])
  }

  /** Causality: later inputs change nothing at earlier positions, at any layer. */
  lemma {:induction false} Causal(d: Decoder, xs: seq<Hidden>, ys: seq<Hidden>, l: nat)
    ensures Hiddens(d, xs + ys, l)[..|xs|] == Hiddens(d, xs, l)
    ensures LayerKV(d, xs + ys, l)[..|xs|] == LayerKV(d, xs, l)
  {
    hide LayerKV;
    if l > 0 {
      Causal(d, xs, ys, l - 1);
      AttendCausal(d, l - 1, Hiddens(d, xs, l - 1), Hiddens(d, xs + ys, l - 1), LayerKV(d, xs, l - 1), LayerKV(d, xs + ys, l - 1));
    }
    KeysFromHiddens(d, xs, ys, l);
  }

  /** What one layer makes of the first positions depends on those positions only. */
  lemma AttendCausal(d: Decoder, l: nat, hs: seq<Hidden>, hs': seq<Hidden>, k: seq<KV>, k': seq<KV>)
    requires |hs| == |k| <= |hs'| == |k'| && hs'[..|hs|] == hs && k'[..|k|] == k
    ensures ChunkAttend(d, l, 0, hs', k')[..|hs|] == ChunkAttend(d, l, 0, hs, k)
  {
    hide Visible, MaskRow;
    forall i | 0 <= i < |hs| ensures ChunkAttend(d, l, 0, hs', k')[i] == ChunkAttend(d, l, 0, hs, k)[i] {
      assert hs'[i] == hs'[..|hs|][i];
      CausalVisibility(k, 0, i);
      CausalVisibility(k', 0, i);
      assert k'[..i + 1] == k'[..|k|][..i + 1];
    }
  }

  lemma KeysFromHiddens(d: Decoder, xs: seq<Hidden>, ys: seq<Hidden>, l: nat)
    requires Hiddens(d, xs + ys, l)[..|xs|] == Hiddens(d, xs, l)
    ensures LayerKV(d, xs + ys, l)[..|xs|] == LayerKV(d, xs, l)
  {
    forall i | 0 <= i < |xs| ensures LayerKV(d, xs + ys, l)[i] == LayerKV(d, xs, l)[i] {
      assert Hiddens(d, xs + ys, l)[i] == Hiddens(d, xs + ys, l)[..|xs|][i];
    }
  }

  /** One layer of a chunk on top of the history of `xs`: the layer's history becomes that of
      `xs + ys`, and the chunk's hidden states are the last ones of the one-pass run. */
  lemma ChunkLayer(d: Decoder, xs: seq<Hidden>, ys: seq<Hidden>, l: nat, hs: seq<Hidden>)
    requires hs == Hiddens(d, xs + ys, l)[|xs|..]
    ensures LayerKV(d, xs, l) + ChunkKV(d, l, |xs|, hs) == LayerKV(d, xs + ys, l)
    ensures ChunkAttend(d, l, |xs|, hs, LayerKV(d, xs + ys, l)) == Hiddens(d, xs + ys, l + 1)[|xs|..]
  {
    Causal(d, xs, ys, l);
    hide Hiddens, ChunkAttend;
    var all := LayerKV(d, xs + ys, l);
    assert all == all[..|xs|] + all[|xs|..];
    assert all[|xs|..] == ChunkKV(d, l, |xs|, hs);
    ChunkAttends(d, xs, ys, l, hs);
  }

  lemma ChunkAttends(d: Decoder, xs: seq<Hidden>, ys: seq<Hidden>, l: nat, hs: seq<Hidden>)
    requires hs == Hiddens(d, xs + ys, l)[|xs|..]
    ensures ChunkAttend(d, l, |xs|, hs, LayerKV(d, xs + ys, l)) == Hiddens(d, xs + ys, l + 1)[|xs|..]
  {
    hide LayerKV, Visible, MaskRow;
    var all := LayerKV(d, xs + ys, l);
    var out := ChunkAttend(d, l, |xs|, hs, all);
    forall i | 0 <= i < |hs| ensures out[i] == Hiddens(d, xs + ys, l + 1)[|xs| + i] {
      CausalVisibility(all, |xs|, i);
      CausalVisibility(all, 0, |xs| + i);
    }
  }

  /** The histories of `xs` with the first `l` layers already extended to `xs + ys`. */
  ghost predicate Extended(d: Decoder, h: Hist, xs: seq<Hidden>, ys: seq<Hidden>, l: nat) {
    |h| == d.layers && forall k :: 0 <= k < d.layers ==> h[k] == LayerKV(d, if k < l then xs + ys else xs, k)
  }

  lemma {:induction false} ForwardCorrect(d: Decoder, h: Hist, xs: seq<Hidden>, ys: seq<Hidden>, hs: seq<Hidden>, l: nat)
    requires l <= d.layers && Extended(d, h, xs, ys, l)
    requires hs == Hiddens(d, xs + ys, l)[|xs|..]
    ensures var f := ForwardFrom(d, h, |xs|, hs, l);
      f.hist == History(d, xs + ys) && f.hidden == Hiddens(d, xs + ys, d.layers)[|xs|..]
    decreases d.layers - l
  {
    hide Hiddens, LayerKV, ChunkKV, ChunkAttend;
    if l < d.layers {
      ChunkLayer(d, xs, ys, l, hs);
      var appended := h[l] + ChunkKV(d, l, |xs|, hs);
      ForwardCorrect(d, h[l := appended], xs, ys, ChunkAttend(d, l, |xs|, hs, appended), l + 1);
    }
  }

  /** Feeding `ys` to a cache that already holds `xs` leaves the history of `xs + ys`, and its last
      output is the one-pass output at the last position. */
  lemma ChunkCorrect(d: Decoder, xs: seq<Hidden>, ys: seq<Hidden>)
    requires ys != []
    ensures var f := ForwardFrom(d, History(d, xs), |xs|, ys, 0);
      f.hist == History(d, xs + ys) && |f.hidden| == |ys| && d.pick(Last(f.hidden)) == Next(d, xs + ys)
  {
    ForwardCorrect(d, History(d, xs), xs, ys, ys, 0);
  }

  // --------------------------------------------------------------------------- chunked prefill

  function Join(chunks: seq<seq<Hidden>>): seq<Hidden>
    decreases |chunks|
  {
    if chunks == [] then [] else Join(chunks[..|chunks| - 1]) + chunks[|chunks| - 1]
  }

  function NoHistory(d: Decoder): (h: Hist)
    ensures |h| == d.layers
  {
    seq(d.layers, l => [])
  }

  /** Run the chunks one forward after another on one cache; the output is the last forward's. */
  function ChunkedPrefill(d: Decoder, chunks: seq<seq<Hidden>>): (f: Forward)
    ensures |f.hist| == d.layers
    ensures chunks != [] ==> |f.hidden| == |chunks[|chunks| - 1]|
    decreases |chunks|
  {
    if chunks == [] then Forward(NoHistory(d), [])
    else
      var n := |chunks| - 1;
      ForwardFrom(d, ChunkedPrefill(d, chunks[..n]).hist, |Join(chunks[..n])|, chunks[n], 0)
  }

  function Last(hs: seq<Hidden>): Hidden
    requires hs != []
  {
    hs[|hs| - 1]
  }

  /** Every partition of an input into non-empty chunks leaves the per-layer cache contents of
      running it in one pass, and its last forward yields the same next token. */
  lemma {:induction false} ChunkingInvariant(d: Decoder, chunks: seq<seq<Hidden>>)
    requires forall i :: 0 <= i < |chunks| ==> chunks[i] != []
    ensures ChunkedPrefill(d, chunks).hist == ForwardFrom(d, NoHistory(d), 0, Join(chunks), 0).hist
    ensures chunks != [] ==>
      && Join(chunks) != []
      && d.pick(Last(ChunkedPrefill(d, chunks).hidden)) ==
         d.pick(Last(ForwardFrom(d, NoHistory(d), 0, Join(chunks), 0).hidden))
  {
    hide ForwardFrom, Next, History, NoHistory;
    ChunkedIs(d, chunks);
    OnePassIs(d, Join(chunks));
  }

  lemma {:induction false} ChunkedIs(d: Decoder, chunks: seq<seq<Hidden>>)
    requires forall i :: 0 <= i < |chunks| ==> chunks[i] != []
    ensures ChunkedPrefill(d, chunks).hist == History(d, Join(chunks))
    ensures chunks != [] ==>
      Join(chunks) != [] && d.pick(Last(ChunkedPrefill(d, chunks).hidden)) == Next(d, Join(chunks))
    decreases |chunks|
  {
    hide History, Next, ForwardFrom, NoHistory;
    EmptyHistory(d);
    if chunks != [] {
      var n := |chunks| - 1;
      ChunkedIs(d, chunks[..n]);
      ChunkCorrect(d, Join(chunks[..n]), chunks[n]);
    }
  }

  lemma OnePassIs(d: Decoder, xs: seq<Hidden>)
    ensures ForwardFrom(d, NoHistory(d), 0, xs, 0).hist == History(d, xs)
    ensures xs != [] ==> d.pick(Last(ForwardFrom(d, NoHistory(d), 0, xs, 0).hidden)) == Next(d, xs)
  {
    hide Next, NoHistory;
    EmptyHistory(d);
    assert [] + xs == xs;
    ForwardCorrect(d, History(d, []), [], xs, xs, 0);
    if xs != [] {
      ChunkCorrect(d, [], xs);
    }
  }

  lemma EmptyHistory(d: Decoder)
    ensures History(d, []) == NoHistory(d)
  {
  }

  // -------------------------------------------------------------------------- greedy decoding

  function Embeds(d: Decoder, tokens: seq<Token>): (r: seq<Hidden>)
    ensures |r| == |tokens|
    ensures forall i :: 0 <= i < |tokens| ==> r[i] == d.embed(tokens[i])
  {
    seq(|tokens|, i requires 0 <= i < |tokens| => d.embed(tokens[i]))
  }

  /** `Request.should_stop`, which is asked after each appended token. */
  predicate Stops(gen: seq<Token>, maxNew: nat, eos: Option<Token>) {
    |gen| >= maxNew || (eos.Some? && gen != [] && gen[|gen| - 1] == eos.value)
  }

  /** Solo generation on one private contiguous cache: the prompt in one pass, then one token per
      forward until the stop condition, which is asked only after a token was produced. */
  function SoloDecode(d: Decoder, h: Hist, past: nat, gen: seq<Token>, maxNew: nat, eos: Option<Token>): seq<Token>
    requires |h| == d.layers && gen != []
    decreases if |gen| < maxNew then maxNew - |gen| else 0
  {
    if Stops(gen, maxNew, eos) then gen
    else
      var f := ForwardFrom(d, h, past, [d.embed(gen[|gen| - 1])], 0);
      SoloDecode(d, f.hist, past + 1, gen + [d.pick(Last(f.hidden))], maxNew, eos)
  }

  function Solo(d: Decoder, prompt: seq<Hidden>, maxNew: nat, eos: Option<Token>): seq<Token>
    requires prompt != []
  {
    var f := ForwardFrom(d, NoHistory(d), 0, prompt, 0);
    SoloDecode(d, f.hist, |prompt|, [d.pick(Last(f.hidden))], maxNew, eos)
  }

  /** Each generated token is the greedy next token after the prompt and the tokens before it. */
  ghost predicate Greedy(d: Decoder, prompt: seq<Hidden>, gen: seq<Token>) {
    prompt != [] && forall k :: 0 <= k < |gen| ==> gen[k] == Next(d, prompt + Embeds(d, gen[..k]))
  }

  /** The stop condition held at the last token and at none before it. */
  ghost predicate StopsAtEnd(gen: seq<Token>, maxNew: nat, eos: Option<Token>) {
    gen != [] && Stops(gen, maxNew, eos) && forall k :: 0 < k < |gen| ==> !Stops(gen[..k], maxNew, eos)
  }

  lemma GreedyPush(d: Decoder, prompt: seq<Hidden>, gen: seq<Token>)
    requires Greedy(d, prompt, gen)
    ensures Greedy(d, prompt, gen + [Next(d, prompt + Embeds(d, gen))])
  {
    var gen' := gen + [Next(d, prompt + Embeds(d, gen))];
    forall k | 0 <= k < |gen'| ensures gen'[k] == Next(d, prompt + Embeds(d, gen'[..k])) {
      assert gen'[..k] == gen[..k];
      if k == |gen| { assert gen[..k] == gen; }
    }
  }

  /** A greedy continuation that stopped where it should is the solo generation. */
  lemma {:induction false} SoloDecodeIs(d: Decoder, prompt: seq<Hidden>, gen: seq<Token>, k: nat, maxNew: nat, eos: Option<Token>)
    requires Greedy(d, prompt, gen) && StopsAtEnd(gen, maxNew, eos) && 0 < k <= |gen|
    ensures SoloDecode(d, History(d, prompt + Embeds(d, gen[..k - 1])), |prompt| + k - 1, gen[..k], maxNew, eos) == gen
    decreases |gen| - k
  {
    hide History, Next, ForwardFrom, Stops, Embeds;
    if k == |gen| {
      assert gen[..k] == gen;
    } else {
      assert !Stops(gen[..k], maxNew, eos);
      EmbedsPush(d, prompt, gen, k);
      var xs, y := prompt + Embeds(d, gen[..k - 1]), d.embed(gen[..k][k - 1]);
      ChunkCorrect(d, xs, [y]);
      SoloDecodeIs(d, prompt, gen, k + 1, maxNew, eos);
      assert gen[k] == Next(d, prompt + Embeds(d, gen[..k]));
      assert gen[..k] + [gen[k]] == gen[..k + 1];
    }
  }

  lemma EmbedsPush(d: Decoder, prompt: seq<Hidden>, gen: seq<Token>, k: nat)
    requires 0 < k <= |gen|
    ensures prompt + Embeds(d, gen[..k - 1]) + [d.embed(gen[..k][k - 1])] == prompt + Embeds(d, gen[..k])
    ensures |Embeds(d, gen[..k - 1])| == k - 1
  {
  }

  /** A greedy list that stopped where it should is the solo generation, and that is where generation stops: at
      the first end-of-sequence token, or at the limit. */
  lemma GreedyIsSolo(d: Decoder, prompt: seq<Hidden>, gen: seq<Token>, maxNew: nat, eos: Option<Token>)
    requires Greedy(d, prompt, gen) && StopsAtEnd(gen, maxNew, eos)
    ensures Solo(d, prompt, maxNew, eos) == gen
    ensures (forall k :: 0 <= k < |gen| - 1 ==> Some(gen[k]) != eos) && (|gen| == Max(1, maxNew) || Some(gen[|gen| - 1]) == eos)
  {
    hide Stops, Next, ForwardFrom, NoHistory;
    OnePassIs(d, prompt);
    assert gen[..0] == [] && prompt + Embeds(d, []) == prompt;
    assert gen[..1] == [gen[0]];
    SoloDecodeIs(d, prompt, gen, 1, maxNew, eos);
    SoloEnds(d, prompt, maxNew, eos);
  }

  lemma {:induction false} SoloDecodeLength(d: Decoder, h: Hist, past: nat, gen: seq<Token>, maxNew: nat, eos: Option<Token>)
    requires |h| == d.layers && gen != []
    ensures |gen| <= |SoloDecode(d, h, past, gen, maxNew, eos)| <= Max(|gen|, maxNew)
    decreases if |gen| < maxNew then maxNew - |gen| else 0
  {
    hide ForwardFrom;
    if !Stops(gen, maxNew, eos) {
      var f := ForwardFrom(d, h, past, [d.embed(gen[|gen| - 1])], 0);
      SoloDecodeLength(d, f.hist, past + 1, gen + [d.pick(Last(f.hidden))], maxNew, eos);
    }
  }

  /** The limit is looked at only after a token was produced: generation always yields at least one
      token, and it keeps to its limit exactly when the limit is not zero. */
  lemma SoloLength(d: Decoder, prompt: seq<Hidden>, maxNew: nat, eos: Option<Token>)
    requires prompt != []
    ensures 1 <= |Solo(d, prompt, maxNew, eos)| <= Max(1, maxNew)
    ensures |Solo(d, prompt, maxNew, eos)| <= maxNew <==> maxNew > 0
  {
    hide ForwardFrom, NoHistory;
    var f := ForwardFrom(d, NoHistory(d), 0, prompt, 0);
    SoloDecodeLength(d, f.hist, |prompt|, [d.pick(Last(f.hidden))], maxNew, eos);
  }

  lemma {:induction false} SoloDecodeEnds(d: Decoder, h: Hist, past: nat, gen: seq<Token>, maxNew: nat, eos: Option<Token>)
    requires |h| == d.layers && gen != [] && forall k :: 0 <= k < |gen| - 1 ==> Some(gen[k]) != eos
    ensures var all := SoloDecode(d, h, past, gen, maxNew, eos);
      && all != [] && (forall k :: 0 <= k < |all| - 1 ==> Some(all[k]) != eos)
      && (|all| >= maxNew || Some(all[|all| - 1]) == eos)
    decreases if |gen| < maxNew then maxNew - |gen| else 0
  {
    hide ForwardFrom;
    if !Stops(gen, maxNew, eos) {
      var f := ForwardFrom(d, h, past, [d.embed(gen[|gen| - 1])], 0);
      SoloDecodeEnds(d, f.hist, past + 1, gen + [d.pick(Last(f.hidden))], maxNew, eos);
    }
  }

  /** Generation alone on a private cache: no token before the last is the end-of-sequence token; it is
      as long as the limit allows, or its last token is that token. */
  lemma SoloEnds(d: Decoder, prompt: seq<Hidden>, maxNew: nat, eos: Option<Token>)
    requires prompt != []
    ensures var gen := Solo(d, prompt, maxNew, eos);
      && (forall k :: 0 <= k < |gen| - 1 ==> Some(gen[k]) != eos)
      && 1 <= |gen| <= Max(1, maxNew) && (|gen| == Max(1, maxNew) || Some(gen[|gen| - 1]) == eos)
  {
    hide ForwardFrom, NoHistory;
    SoloLength(d, prompt, maxNew, eos);
    var f := ForwardFrom(d, NoHistory(d), 0, prompt, 0);
    SoloDecodeEnds(d, f.hist, |prompt|, [d.pick(Last(f.hidden))], maxNew, eos);
  }
}
