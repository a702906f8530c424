/** One generation request and its lifecycle (edgerag/sched/request.py). */
module Requests {
  import opened Common
  import opened Tensors
  import opened Decoders

  type Id = nat

  datatype State = Waiting | Prefilling | Decoding | Swapped | Finished | Rejected

  /** `cache` names the request's KV cache in the arena, when it has one. */
  datatype Request = Request(
    id: Id,
    prompt: seq<Token>,
    embeds: Option<seq<Hidden>>,
    maxNew: nat,
    state: State,
    offset: nat,
    gen: seq<Token>,
    cache: Option<nat>,
    preemptions: nat)

  predicate PrefillDone(r: Request) {
    r.offset >= |r.prompt|
  }

  predicate IsTerminal(r: Request) {
    r.state == Finished || r.state == Rejected
  }

  predicate Preemptable(r: Request) {
    r.state == Prefilling || r.state == Decoding
  }

  function NextPrefillChunk(r: Request, size: int): Result<seq<Token>> {
    if size <= 0 then Err(ValueError)
    else if r.offset >= |r.prompt| then Ok([])
    else Ok(r.prompt[r.offset..Min(r.offset + size, |r.prompt|)])
  }

  function AdvancePrefill(r: Request, n: int): Result<Request> {
    if n < 0 || r.offset + n > |r.prompt| then Err(ValueError) else Ok(r.(offset := r.offset + n))
  }

  predicate ShouldStop(r: Request, eos: Option<Token>) {
    Stops(r.gen, r.maxNew, eos)
  }

  /** A request as the serving stack accepts it: prompt embeddings, when given, cover the prompt. */
  predicate WellFormed(r: Request) {
    r.prompt != [] && (r.embeds.Some? ==> |r.embeds.value| == |r.prompt|)
  }

  /** What the decoder is fed for the prompt: the given embeddings, or the embedded token ids. */
  function PromptInputs(d: Decoder, r: Request): seq<Hidden> {
    match r.embeds
    case Some(e) => e
    case None => Embeds(d, r.prompt)
  }

  /** The chunks a prefill takes: the next one, then on from where it ends, until there is none. */
  function ChunksFrom(r: Request, size: nat): seq<seq<Token>>
    requires size > 0
    decreases |r.prompt| - r.offset
  {
    var chunk := NextPrefillChunk(r, size).value;
    if chunk == [] || AdvancePrefill(r, |chunk|).Err? then []
    else [chunk] + ChunksFrom(AdvancePrefill(r, |chunk|).value, size)
  }

  function Flatten(chunks: seq<seq<Token>>): seq<Token> {
    if chunks == [] then [] else chunks[0] + Flatten(chunks[1..])
  }

  lemma FrontChunk(chunk: seq<Token>, rest: seq<seq<Token>>, size: nat, left: seq<Token>)
    requires 0 < |chunk| <= size && Flatten(rest) == left && (|chunk| < size ==> left == [])
    requires forall k :: 0 <= k < |rest| ==> 0 < |rest[k]| <= size
    requires forall k :: 0 <= k < |rest| - 1 ==> |rest[k]| == size
    ensures var chunks := [chunk] + rest;
      && Flatten(chunks) == chunk + left
      && (forall k :: 0 <= k < |chunks| ==> 0 < |chunks[k]| <= size)
      && (forall k :: 0 <= k < |chunks| - 1 ==> |chunks[k]| == size)
  {
    assert ([chunk] + rest)[1..] == rest;
    if rest != [] {
      assert |Flatten(rest)| >= |rest[0]|;
    }
  }

  /** They cover what is left of the prompt exactly once, each as long as was asked for but the last, which may
      be shorter. */
  lemma {:induction false} ChunksCoverPrompt(r: Request, size: nat)
    requires size > 0 && r.offset <= |r.prompt|
    ensures var chunks := ChunksFrom(r, size);
      && Flatten(chunks) == r.prompt[r.offset..]
      && (forall k :: 0 <= k < |chunks| ==> 0 < |chunks[k]| <= size)
      && (forall k :: 0 <= k < |chunks| - 1 ==> |chunks[k]| == size)
    decreases |r.prompt| - r.offset
  {
    if !PrefillDone(r) {
      var n := Min(size, |r.prompt| - r.offset);
      var r' := r.(offset := r.offset + n);
      assert NextPrefillChunk(r, size) == Ok(r.prompt[r.offset..r.offset + n]);
      assert AdvancePrefill(r, n) == Ok(r');
      ChunksCoverPrompt(r', size);
      var chunk, rest := r.prompt[r.offset..r.offset + n], ChunksFrom(r', size);
      assert ChunksFrom(r, size) == [chunk] + rest;
      FrontChunk(chunk, rest, size, r.prompt[r'.offset..]);
      assert chunk + r.prompt[r'.offset..] == r.prompt[r.offset..];
    }
  }
}
